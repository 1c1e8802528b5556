// The in-place quicksort on a doubly linked list of persons (lab1).
//
// The first half is the order on keys and the recursion scheme of the sort on
// sequences of nodes; the second half is the pointer program, proved to realise
// that scheme on the heap.
module NameList {
  import opened Options

  // ---------------------------------------------------------------- strcmp

  // strcmp on NUL-free byte strings: the sign of the first difference.
  function Strcmp(a: string, b: string): int {
    if a == [] then (if b == [] then 0 else -1)
    else if b == [] then 1
    else if a[0] < b[0] then -1
    else if b[0] < a[0] then 1
    else Strcmp(a[1..], b[1..])
  }

  lemma {:induction false} StrcmpZeroIsEquality(a: string, b: string)
    ensures Strcmp(a, b) == 0 <==> a == b
  {
    if a == [] || b == [] {
    } else if a[0] == b[0] {
      StrcmpZeroIsEquality(a[1..], b[1..]);
      assert a == [a[0]] + a[1..] && b == [b[0]] + b[1..];
    }
  }

  lemma {:induction false} StrcmpFlips(a: string, b: string)
    ensures Strcmp(a, b) == -Strcmp(b, a)
  {
    if a == [] || b == [] {
    } else if a[0] == b[0] {
      StrcmpFlips(a[1..], b[1..]);
    }
  }

  lemma {:induction false} StrcmpTransitive(a: string, b: string, c: string)
    requires Strcmp(a, b) < 0 && Strcmp(b, c) < 0
    ensures Strcmp(a, c) < 0
  {
    if a != [] && b != [] && c != [] && a[0] == b[0] == c[0] {
      StrcmpTransitive(a[1..], b[1..], c[1..]);
    }
  }

  // The order of a dictionary: at the first difference the smaller character comes
  // first, and a string comes before its continuations.
  ghost predicate Precedes(a: string, b: string) {
    exists k {:trigger a[..k]} ::
      && 0 <= k <= |a| && k <= |b| && a[..k] == b[..k]
      && (k == |a| < |b| || (k < |a| && k < |b| && a[k] < b[k]))
  }

  lemma {:induction false} StrcmpIsDictionaryOrder(a: string, b: string)
    ensures Strcmp(a, b) < 0 <==> Precedes(a, b)
  {
    if a != [] && b != [] && a[0] == b[0] {
      StrcmpIsDictionaryOrder(a[1..], b[1..]);
      if Precedes(a[1..], b[1..]) {
        var k :| 0 <= k <= |a| - 1 && k <= |b| - 1 && a[1..][..k] == b[1..][..k]
              && (k == |a| - 1 < |b| - 1 || (k < |a| - 1 && k < |b| - 1 && a[1..][k] < b[1..][k]));
        assert a[..k + 1] == [a[0]] + a[1..][..k] && b[..k + 1] == [b[0]] + b[1..][..k];
      }
      if Precedes(a, b) {
        var k :| 0 <= k <= |a| && k <= |b| && a[..k] == b[..k]
              && (k == |a| < |b| || (k < |a| && k < |b| && a[k] < b[k]));
        assert a[1..][..k - 1] == a[..k][1..] && b[1..][..k - 1] == b[..k][1..];
      }
    } else if a == [] || b == [] {
      assert a[..0] == b[..0];
    } else {
      assert a[..0] == b[..0];
      assert Precedes(a, b) ==> a[0] < b[0] by {
        FirstDiffers(a, b);
      }
    }
  }

  lemma FirstDiffers(a: string, b: string)
    requires a != [] && b != [] && a[0] != b[0]
    ensures Precedes(a, b) ==> a[0] < b[0]
  {
    if k :| 0 <= k <= |a| && k <= |b| && a[..k] == b[..k]
            && (k == |a| < |b| || (k < |a| && k < |b| && a[k] < b[k])) {
      assert k > 0 ==> a[..k][0] == b[..k][0];
    }
  }

  // ---------------------------------------------------------------- keys

  datatype Key = Key(surname: string, name: string)

  // The three tests of the partitioning loop.
  predicate Same(a: Key, b: Key) {
    Strcmp(a.name, b.name) == 0 && Strcmp(a.surname, b.surname) == 0
  }

  predicate Less(a: Key, b: Key) {
    || Strcmp(a.surname, b.surname) < 0
    || (Strcmp(a.surname, b.surname) == 0 && Strcmp(a.name, b.name) < 0)
  }

  predicate Greater(a: Key, b: Key) {
    || Strcmp(a.surname, b.surname) > 0
    || (Strcmp(a.surname, b.surname) == 0 && Strcmp(a.name, b.name) > 0)
  }

  // Exactly one of the three tests succeeds: the keys are compared by surname, and
  // by name where the surnames are the same.
  lemma KeyOrder(a: Key, b: Key)
    ensures Less(a, b) <==>
      Precedes(a.surname, b.surname) || (a.surname == b.surname && Precedes(a.name, b.name))
    ensures Same(a, b) <==> a == b
    ensures Greater(a, b) <==> Less(b, a)
    ensures Less(a, b) ==> a != b && !Greater(a, b)
    ensures Less(a, b) || a == b || Greater(a, b)
  {
    StrcmpZeroIsEquality(a.surname, b.surname);
    StrcmpZeroIsEquality(a.name, b.name);
    StrcmpFlips(a.surname, b.surname);
    StrcmpFlips(a.name, b.name);
    StrcmpIsDictionaryOrder(a.surname, b.surname);
    StrcmpIsDictionaryOrder(a.name, b.name);
  }

  lemma LessTransitive(a: Key, b: Key, c: Key)
    requires Less(a, b) && Less(b, c)
    ensures Less(a, c)
  {
    StrcmpZeroIsEquality(a.surname, b.surname);
    StrcmpZeroIsEquality(b.surname, c.surname);
    if Strcmp(a.surname, b.surname) < 0 && Strcmp(b.surname, c.surname) < 0 {
      StrcmpTransitive(a.surname, b.surname, c.surname);
    } else if Strcmp(a.surname, b.surname) == 0 && Strcmp(b.surname, c.surname) == 0 {
      StrcmpTransitive(a.name, b.name, c.name);
    }
  }

  // ---------------------------------------------------------------- nodes

  // The list code never writes a node's key, so keys are constants of the node.
  class Node {
    const name: Option<string>
    const surname: Option<string>
    var next: Node?
    var prev: Node?

    constructor (name: Option<string>, surname: Option<string>)
      ensures this.name == name && this.surname == surname
      ensures next == null && prev == null
    {
      this.name := name;
      this.surname := surname;
      next := null;
      prev := null;
    }
  }

  class List {
    var head: Node?

    constructor ()
      ensures head == null
    {
      head := null;
    }
  }

  predicate Keyed(n: Node) {
    n.name.Some? && n.surname.Some?
  }

  function KeyOf(n: Node): Key
    requires Keyed(n)
  {
    Key(n.surname.value, n.name.value)
  }

  ghost predicate AllKeyed(ns: seq<Node>) {
    forall i :: 0 <= i < |ns| ==> Keyed(ns[i])
  }

  ghost function Nodes(ns: seq<Node>): (s: set<Node>)
    ensures forall i :: 0 <= i < |ns| ==> ns[i] in s
  {
    set n | n in ns
  }

  // No node occurs twice.
  ghost predicate NoDup(ns: seq<Node>) {
    ns != [] ==> ns[|ns| - 1] !in ns[..|ns| - 1] && NoDup(ns[..|ns| - 1])
  }

  lemma {:induction false} NoDupIndices(ns: seq<Node>)
    ensures NoDup(ns) <==> forall i, j :: 0 <= i < j < |ns| ==> ns[i] != ns[j]
  {
    if ns != [] {
      var front, last := ns[..|ns| - 1], ns[|ns| - 1];
      NoDupIndices(front);
      assert forall i :: 0 <= i < |front| ==> front[i] == ns[i];
      assert NoDup(ns) <==> last !in front && NoDup(front);
      hide NoDup;
      assert last in front <==> exists i :: 0 <= i < |front| && ns[i] == last;
    }
  }

  ghost predicate DistinctKeys(ns: seq<Node>)
    requires AllKeyed(ns)
  {
    forall i, j :: 0 <= i < j < |ns| ==> ns[i].surname != ns[j].surname || ns[i].name != ns[j].name
  }

  ghost predicate StrictlyIncreasing(ns: seq<Node>)
    requires AllKeyed(ns)
  {
    forall i, j :: 0 <= i < j < |ns| ==> Less(KeyOf(ns[i]), KeyOf(ns[j]))
  }

  // The order of a directory of persons, in terms of their names alone.
  ghost predicate InDirectoryOrder(ns: seq<Node>) {
    forall i, j :: 0 <= i < j < |ns| ==> ComesBefore(ns[i], ns[j])
  }

  ghost predicate ComesBefore(a: Node, b: Node) {
    && a.surname.Some? && b.surname.Some? && a.name.Some? && b.name.Some?
    && (|| Precedes(a.surname.value, b.surname.value)
        || (a.surname.value == b.surname.value && Precedes(a.name.value, b.name.value)))
  }

  lemma IncreasingIsDirectoryOrder(ns: seq<Node>)
    requires AllKeyed(ns) && StrictlyIncreasing(ns)
    ensures InDirectoryOrder(ns)
  {
    hide Less, Precedes;
    forall i, j | 0 <= i < j < |ns|
      ensures ComesBefore(ns[i], ns[j])
    {
      KeyOrder(KeyOf(ns[i]), KeyOf(ns[j]));
    }
  }

  // ------------------------------------------------- the recursion scheme

  datatype Side = Below | Equal | Above

  ghost predicate OnSide(n: Node, pivot: Node, side: Side)
    requires Keyed(n) && Keyed(pivot)
  {
    match side
    case Below => Less(KeyOf(n), KeyOf(pivot))
    case Equal => Same(KeyOf(n), KeyOf(pivot))
    case Above => Greater(KeyOf(n), KeyOf(pivot))
  }

  // The nodes one of the three sub-lists receives, in the order of the walk.
  ghost function Part(ns: seq<Node>, pivot: Node, side: Side): (part: seq<Node>)
    requires AllKeyed(ns) && Keyed(pivot)
    ensures AllKeyed(part)
  {
    if ns == [] then []
    else
      var last := ns[|ns| - 1];
      Part(ns[..|ns| - 1], pivot, side) + if OnSide(last, pivot, side) then [last] else []
  }

  lemma {:induction false} PartMembers(ns: seq<Node>, pivot: Node, side: Side)
    requires AllKeyed(ns) && Keyed(pivot)
    ensures forall n :: n in Part(ns, pivot, side) ==> n in ns && OnSide(n, pivot, side)
    ensures forall n :: n in ns && OnSide(n, pivot, side) ==> n in Part(ns, pivot, side)
    ensures NoDup(ns) ==> NoDup(Part(ns, pivot, side))
  {
    if ns != [] {
      var front := ns[..|ns| - 1];
      PartMembers(front, pivot, side);
      assert ns == front + [ns[|ns| - 1]];
      var part := Part(front, pivot, side);
      assert part + [] == part && (part + [ns[|ns| - 1]])[..|part|] == part;
    }
  }

  // A node is on exactly one side of the pivot.
  lemma OneSide(n: Node, pivot: Node)
    requires Keyed(n) && Keyed(pivot)
    ensures OnSide(n, pivot, Below) || OnSide(n, pivot, Equal) || OnSide(n, pivot, Above)
    ensures forall sa, sb :: OnSide(n, pivot, sa) && OnSide(n, pivot, sb) ==> sa == sb
  {
    KeyOrder(KeyOf(n), KeyOf(pivot));
  }

  ghost function Extend(ns: seq<Node>, node: Node, pivot: Node, side: Side): seq<Node>
    requires Keyed(node) && Keyed(pivot)
  {
    ns + if OnSide(node, pivot, side) then [node] else []
  }

  lemma PartStep(ns: seq<Node>, k: nat, pivot: Node)
    requires AllKeyed(ns) && Keyed(pivot) && k < |ns|
    ensures Keyed(ns[k])
    ensures forall side :: Part(ns[..k + 1], pivot, side) == Extend(Part(ns[..k], pivot, side), ns[k], pivot, side)
  {
    assert ns[..k + 1][..k] == ns[..k];
  }

  lemma ExtendsByOne(a: seq<Node>, b: seq<Node>, c: seq<Node>, n: Node, pivot: Node)
    requires Keyed(n) && Keyed(pivot)
    ensures multiset(Extend(a, n, pivot, Below)) + multiset(Extend(b, n, pivot, Equal))
            + multiset(Extend(c, n, pivot, Above))
         == multiset(a) + multiset(b) + multiset(c) + multiset{n}
  {
    OneSide(n, pivot);
    hide OnSide;
    assert a + [] == a && b + [] == b && c + [] == c;
  }

  lemma {:induction false} PartsArePermutation(ns: seq<Node>, pivot: Node)
    requires AllKeyed(ns) && Keyed(pivot)
    ensures multiset(Part(ns, pivot, Below)) + multiset(Part(ns, pivot, Equal)) + multiset(Part(ns, pivot, Above))
         == multiset(ns)
  {
    if ns != [] {
      var k := |ns| - 1;
      assert ns[..k + 1] == ns && ns == ns[..k] + [ns[k]];
      PartsArePermutation(ns[..k], pivot);
      PartStep(ns, k, pivot);
      hide Part, Extend;
      ExtendsByOne(Part(ns[..k], pivot, Below), Part(ns[..k], pivot, Equal), Part(ns[..k], pivot, Above), ns[k], pivot);
    }
  }

  // The node order the sort produces when its recursion closes within `depth`
  // nested calls, and None when it does not.
  ghost function Quick(ns: seq<Node>, depth: nat): Option<seq<Node>>
    requires |ns| >= 2 ==> AllKeyed(ns)
    decreases depth
  {
    if |ns| < 2 then Some(ns)
    else if depth == 0 then None
    else
      var lesser := Quick(Part(ns, ns[0], Below), depth - 1);
      var equal := Quick(Part(ns, ns[0], Equal), depth - 1);
      var greater := Quick(Part(ns, ns[0], Above), depth - 1);
      if lesser.Some? && equal.Some? && greater.Some?
      then Some(lesser.value + equal.value + greater.value)
      else None
  }

  lemma {:induction false} NoDupIsCounting(ns: seq<Node>)
    ensures NoDup(ns) <==> forall n :: multiset(ns)[n] <= 1
  {
    if ns != [] {
      var front, last := ns[..|ns| - 1], ns[|ns| - 1];
      assert ns == front + [last];
      NoDupIsCounting(front);
      if NoDup(ns) {
        assert last !in front;
      } else if NoDup(front) {
        assert last in front;
        assert multiset(ns)[last] >= 2;
      } else {
        var n :| multiset(front)[n] > 1;
        assert multiset(ns)[n] > 1;
      }
    }
  }

  lemma ShortListCloses(ns: seq<Node>, depth: nat)
    requires |ns| < 2
    ensures Quick(ns, depth) == Some(ns)
  {
  }

  lemma QuickUnfolds(ns: seq<Node>, depth: nat)
    requires |ns| >= 2 && AllKeyed(ns)
    ensures Keyed(ns[0])
    ensures depth == 0 ==> Quick(ns, depth) == None
    ensures depth > 0 ==>
      var lesser := Quick(Part(ns, ns[0], Below), depth - 1);
      var equal := Quick(Part(ns, ns[0], Equal), depth - 1);
      var greater := Quick(Part(ns, ns[0], Above), depth - 1);
      Quick(ns, depth) ==
        if lesser.Some? && equal.Some? && greater.Some?
        then Some(lesser.value + equal.value + greater.value)
        else None
  {
  }

  lemma SameMultisetSameMembers(a: seq<Node>, b: seq<Node>)
    requires multiset(a) == multiset(b)
    ensures forall n :: n in a <==> n in b
    ensures Nodes(a) == Nodes(b)
    ensures AllKeyed(b) ==> AllKeyed(a)
    ensures NoDup(b) ==> NoDup(a)
  {
    NoDupIsCounting(a);
    NoDupIsCounting(b);
    forall n ensures n in a <==> n in b {
      assert n in a <==> n in multiset(a);
      assert n in b <==> n in multiset(b);
    }
    forall i | 0 <= i < |a| && AllKeyed(b) ensures Keyed(a[i]) {
      assert a[i] in b;
    }
  }

  lemma {:induction false} QuickPermutes(ns: seq<Node>, depth: nat)
    requires |ns| >= 2 ==> AllKeyed(ns)
    requires Quick(ns, depth).Some?
    ensures multiset(Quick(ns, depth).value) == multiset(ns)
    decreases depth
  {
    hide Quick, Part;
    if |ns| < 2 {
      ShortListCloses(ns, depth);
    } else {
      QuickUnfolds(ns, depth);
      QuickPermutes(Part(ns, ns[0], Below), depth - 1);
      QuickPermutes(Part(ns, ns[0], Equal), depth - 1);
      QuickPermutes(Part(ns, ns[0], Above), depth - 1);
      PartsArePermutation(ns, ns[0]);
    }
  }

  // A list whose keys are all alike is its own `equal` part: no depth suffices.
  lemma {:induction false} RepeatedKeyDiverges(ns: seq<Node>, depth: nat)
    requires |ns| >= 2 && AllKeyed(ns)
    requires forall i :: 0 <= i < |ns| ==> KeyOf(ns[i]) == KeyOf(ns[0])
    ensures Quick(ns, depth) == None
    decreases depth
  {
    if depth > 0 {
      EqualPartIsAll(ns, ns[0]);
      RepeatedKeyDiverges(ns, depth - 1);
    }
  }

  lemma {:induction false} EqualPartIsAll(ns: seq<Node>, pivot: Node)
    requires AllKeyed(ns) && Keyed(pivot)
    requires forall i :: 0 <= i < |ns| ==> KeyOf(ns[i]) == KeyOf(pivot)
    ensures Part(ns, pivot, Equal) == ns
  {
    if ns != [] {
      EqualPartIsAll(ns[..|ns| - 1], pivot);
      KeyOrder(KeyOf(ns[|ns| - 1]), KeyOf(pivot));
    }
  }

  ghost predicate AllLess(a: seq<Node>, b: seq<Node>)
    requires AllKeyed(a) && AllKeyed(b)
  {
    forall i, j :: 0 <= i < |a| && 0 <= j < |b| ==> Less(KeyOf(a[i]), KeyOf(b[j]))
  }

  // What comes from two different parts is ordered by the pivot between them.
  lemma SidesOrdered(a: seq<Node>, b: seq<Node>, p: Node, sa: Side, sb: Side)
    requires AllKeyed(a) && AllKeyed(b) && Keyed(p)
    requires forall n :: n in a ==> Keyed(n) && OnSide(n, p, sa)
    requires forall n :: n in b ==> Keyed(n) && OnSide(n, p, sb)
    requires (sa == Below && sb != Below) || (sa == Equal && sb == Above)
    ensures AllLess(a, b)
  {
    forall i, j | 0 <= i < |a| && 0 <= j < |b|
      ensures Less(KeyOf(a[i]), KeyOf(b[j]))
    {
      var x, y, k := KeyOf(a[i]), KeyOf(b[j]), KeyOf(p);
      assert a[i] in a && b[j] in b;
      KeyOrder(x, k);
      KeyOrder(y, k);
      if sa == Below && sb == Above {
        LessTransitive(x, k, y);
      }
    }
  }

  lemma IncreasingConcat(a: seq<Node>, b: seq<Node>)
    requires AllKeyed(a) && AllKeyed(b) && AllLess(a, b)
    requires StrictlyIncreasing(a) && StrictlyIncreasing(b)
    ensures AllKeyed(a + b) && StrictlyIncreasing(a + b)
  {
  }

  // The sorted parts, put in a row, are sorted.
  lemma SortedPartsJoin(ns: seq<Node>, p: Node, a: seq<Node>, b: seq<Node>, c: seq<Node>)
    requires AllKeyed(ns) && Keyed(p)
    requires multiset(a) == multiset(Part(ns, p, Below)) && AllKeyed(a) && StrictlyIncreasing(a)
    requires multiset(b) == multiset(Part(ns, p, Equal)) && AllKeyed(b) && StrictlyIncreasing(b)
    requires multiset(c) == multiset(Part(ns, p, Above)) && AllKeyed(c) && StrictlyIncreasing(c)
    ensures AllKeyed(a + b + c) && StrictlyIncreasing(a + b + c)
  {
    PartMembers(ns, p, Below);
    PartMembers(ns, p, Equal);
    PartMembers(ns, p, Above);
    SameMultisetSameMembers(a, Part(ns, p, Below));
    SameMultisetSameMembers(b, Part(ns, p, Equal));
    SameMultisetSameMembers(c, Part(ns, p, Above));
    SidesOrdered(a, b, p, Below, Equal);
    SidesOrdered(a, c, p, Below, Above);
    SidesOrdered(b, c, p, Equal, Above);
    IncreasingConcat(a, b);
    IncreasingConcat(a + b, c);
  }

  // Whenever the recursion closes, the keys come out strictly increasing.
  lemma {:induction false} QuickSorts(ns: seq<Node>, depth: nat)
    requires AllKeyed(ns) && Quick(ns, depth).Some?
    ensures AllKeyed(Quick(ns, depth).value) && StrictlyIncreasing(Quick(ns, depth).value)
    decreases depth
  {
    hide Quick, Part, Less;
    if |ns| < 2 {
      ShortListCloses(ns, depth);
    } else {
      var lo, eq, hi := Part(ns, ns[0], Below), Part(ns, ns[0], Equal), Part(ns, ns[0], Above);
      QuickUnfolds(ns, depth);
      QuickSorts(lo, depth - 1);
      QuickSorts(eq, depth - 1);
      QuickSorts(hi, depth - 1);
      QuickPermutes(lo, depth - 1);
      QuickPermutes(eq, depth - 1);
      QuickPermutes(hi, depth - 1);
      SortedPartsJoin(ns, ns[0], Quick(lo, depth - 1).value, Quick(eq, depth - 1).value, Quick(hi, depth - 1).value);
    }
  }

  lemma DistinctKeysOfSome(ns: seq<Node>, sub: seq<Node>)
    requires AllKeyed(ns) && DistinctKeys(ns)
    requires AllKeyed(sub) && NoDup(sub) && forall n :: n in sub ==> n in ns
    ensures DistinctKeys(sub)
  {
    NoDupIndices(sub);
    forall i, j | 0 <= i < j < |sub|
      ensures KeyOf(sub[i]) != KeyOf(sub[j])
    {
      assert sub[i] in ns && sub[j] in ns;
    }
  }

  lemma DistinctKeysNoDup(ns: seq<Node>)
    requires AllKeyed(ns) && DistinctKeys(ns)
    ensures NoDup(ns)
  {
    forall i, j | 0 <= i < j < |ns| ensures ns[i] != ns[j] {
      assert KeyOf(ns[i]) != KeyOf(ns[j]);
    }
    NoDupIndices(ns);
  }

  // With distinct keys the pivot is alone in its part.
  lemma PivotAlone(ns: seq<Node>)
    requires ns != [] && AllKeyed(ns) && DistinctKeys(ns)
    ensures |Part(ns, ns[0], Equal)| == 1
  {
    var eq := Part(ns, ns[0], Equal);
    PartMembers(ns, ns[0], Equal);
    KeyOrder(KeyOf(ns[0]), KeyOf(ns[0]));
    assert ns[0] in eq;
    if |eq| >= 2 {
      assert eq[0] in eq && eq[1] in eq;
      KeyOrder(KeyOf(eq[0]), KeyOf(ns[0]));
      KeyOrder(KeyOf(eq[1]), KeyOf(ns[0]));
      DistinctKeysNoDup(ns);
      DistinctKeysOfSome(ns, eq);
    }
  }

  lemma PartSizes(ns: seq<Node>, pivot: Node)
    requires AllKeyed(ns) && Keyed(pivot)
    ensures |Part(ns, pivot, Below)| + |Part(ns, pivot, Equal)| + |Part(ns, pivot, Above)| == |ns|
  {
    PartsArePermutation(ns, pivot);
    assert |multiset(Part(ns, pivot, Below)) + multiset(Part(ns, pivot, Equal)) + multiset(Part(ns, pivot, Above))|
        == |multiset(ns)|;
  }

  lemma {:induction false} DistinctKeysClose(ns: seq<Node>, depth: nat)
    requires AllKeyed(ns) && DistinctKeys(ns) && depth >= |ns|
    ensures Quick(ns, depth).Some?
    decreases depth
  {
    hide Quick, Part, NoDup, DistinctKeys;
    if |ns| < 2 {
      ShortListCloses(ns, depth);
    } else {
      QuickUnfolds(ns, depth);
      DistinctKeysNoDup(ns);
      PivotAlone(ns);
      PartSizes(ns, ns[0]);
      PartMembers(ns, ns[0], Below);
      PartMembers(ns, ns[0], Above);
      DistinctKeysOfSome(ns, Part(ns, ns[0], Below));
      DistinctKeysOfSome(ns, Part(ns, ns[0], Above));
      DistinctKeysClose(Part(ns, ns[0], Below), depth - 1);
      DistinctKeysClose(Part(ns, ns[0], Above), depth - 1);
      ShortListCloses(Part(ns, ns[0], Equal), depth - 1);
    }
  }

  // The recursion of the sort closes exactly when no (surname, name) key
  // occurs twice; lists of fewer than two nodes return at once.
  lemma SortTerminatesIffKeysDistinct(ns: seq<Node>)
    requires NoDup(ns)
    requires |ns| >= 2 ==> AllKeyed(ns)
    ensures (exists depth: nat :: Quick(ns, depth).Some?) <==> (|ns| < 2 || DistinctKeys(ns))
  {
    if |ns| < 2 {
      assert Quick(ns, 0).Some?;
    } else if DistinctKeys(ns) {
      DistinctKeysClose(ns, |ns|);
      assert Quick(ns, |ns|).Some?;
    } else if depth: nat :| Quick(ns, depth).Some? {
      SortedPermutationHasDistinctKeys(ns, depth);
    }
  }

  lemma SortedPermutationHasDistinctKeys(ns: seq<Node>, depth: nat)
    requires NoDup(ns) && AllKeyed(ns) && Quick(ns, depth).Some?
    ensures DistinctKeys(ns)
  {
    var out := Quick(ns, depth).value;
    QuickPermutes(ns, depth);
    QuickSorts(ns, depth);
    SameMultisetSameMembers(ns, out);
    NoDupIndices(ns);
    forall i, j | 0 <= i < j < |ns|
      ensures KeyOf(ns[i]) != KeyOf(ns[j])
    {
      assert ns[i] in out && ns[j] in out;
      var a :| 0 <= a < |out| && out[a] == ns[i];
      var b :| 0 <= b < |out| && out[b] == ns[j];
      KeyOrder(KeyOf(out[a]), KeyOf(out[b]));
      KeyOrder(KeyOf(out[b]), KeyOf(out[a]));
    }
  }

  // ------------------------------------------------------ the list on the heap

  // Neighbours point at each other.
  ghost predicate Links(ns: seq<Node>)
    reads Nodes(ns)
  {
    var k := |ns| - 1;
    k > 0 ==> ns[k - 1].next == ns[k] && ns[k].prev == ns[k - 1] && Links(ns[..k])
  }

  lemma {:induction false} LinksIndices(ns: seq<Node>)
    ensures Links(ns) <==>
      && (forall i {:trigger ns[i].next} :: 0 <= i < |ns| - 1 ==> ns[i].next == ns[i + 1])
      && (forall i {:trigger ns[i].prev} :: 1 <= i < |ns| ==> ns[i].prev == ns[i - 1])
  {
    if |ns| > 1 {
      var front := ns[..|ns| - 1];
      LinksIndices(front);
      assert forall i :: 0 <= i < |front| ==> front[i] == ns[i];
    }
  }

  // `ns` is the doubly linked chain that starts at `head`.
  ghost predicate Chain(head: Node?, ns: seq<Node>)
    reads Nodes(ns)
  {
    && head == (if ns == [] then null else ns[0])
    && (ns != [] ==> ns[0].prev == null && ns[|ns| - 1].next == null)
    && Links(ns)
  }

  lemma NodesAreElements(ns: seq<Node>)
    ensures forall n {:trigger n in Nodes(ns)} :: n in Nodes(ns) ==> exists i :: 0 <= i < |ns| && ns[i] == n
  {}

  // Writing a list header cannot touch a node.
  lemma NodesAreNoLists(ns: seq<Node>, list: List)
    ensures forall n :: n in Nodes(ns) ==> (n as object) != list
  {}

  // The only nodes a splice writes are the first and the last of a chain.
  ghost function Ends(ns: seq<Node>): (ends: set<Node>)
    ensures ends <= Nodes(ns)
  {
    if ns == [] then {} else {ns[0], ns[|ns| - 1]}
  }

  lemma EndsUnique(ns: seq<Node>)
    requires ns != [] && NoDup(ns)
    ensures forall i :: 0 <= i < |ns| - 1 ==> ns[i] != ns[|ns| - 1]
    ensures forall i :: 1 <= i < |ns| ==> ns[i] != ns[0]
  {
    NoDupIndices(ns);
  }

  lemma ChainLength(head: Node?, ns: seq<Node>)
    requires Chain(head, ns)
    ensures head == null <==> ns == []
    ensures head == null || head.next == null <==> |ns| < 2
    ensures head != null ==> head == ns[0]
  {
    LinksIndices(ns);
  }

  method AddElem(list: List?, nodeToAdd: Node?, ghost ns: seq<Node>)
    requires list != null ==> Chain(list.head, ns)
    requires NoDup(ns) && nodeToAdd !in Nodes(ns)
    modifies list, Ends(ns), nodeToAdd
    ensures list != null && nodeToAdd != null ==> Chain(list.head, ns + [nodeToAdd])
    ensures list == null || nodeToAdd == null ==>
      && (list != null ==> unchanged(list)) && unchanged(Ends(ns))
      && (nodeToAdd != null ==> unchanged(nodeToAdd))
  {
    if list == null {
      return;
    }
    if nodeToAdd == null {
      return;
    }
    var iterationNode := list.head;
    if list.head != null {
      ghost var k := 0;
      LinksIndices(ns);
      EndsUnique(ns);
      while iterationNode.next != null
        invariant 0 <= k < |ns| && iterationNode == ns[k]
        decreases |ns| - k
      {
        iterationNode := iterationNode.next;
        k := k + 1;
      }
      iterationNode.next := nodeToAdd;
      nodeToAdd.prev := iterationNode;
      nodeToAdd.next := null;
      LinksIndices(ns + [nodeToAdd]);
    } else {
      list.head := nodeToAdd;
      nodeToAdd.next := null;
      nodeToAdd.prev := null;
    }
  }

  // Two chains with the seam closed.
  lemma SpliceIsChain(ns: seq<Node>, ms: seq<Node>)
    requires ns != [] && ms != []
    requires forall i {:trigger ns[i].next} :: 0 <= i < |ns| - 1 ==> ns[i].next == ns[i + 1]
    requires forall i {:trigger ns[i].prev} :: 1 <= i < |ns| ==> ns[i].prev == ns[i - 1]
    requires forall i {:trigger ms[i].next} :: 0 <= i < |ms| - 1 ==> ms[i].next == ms[i + 1]
    requires forall i {:trigger ms[i].prev} :: 1 <= i < |ms| ==> ms[i].prev == ms[i - 1]
    requires ns[0].prev == null && ms[|ms| - 1].next == null
    requires ns[|ns| - 1].next == ms[0] && ms[0].prev == ns[|ns| - 1]
    ensures Chain(ns[0], ns + ms)
  {
    LinksIndices(ns + ms);
  }

  // Both arguments end up denoting the concatenation.
  method ListConcat(first: List?, second: List?, ghost ns: seq<Node>, ghost ms: seq<Node>)
    requires first != null && second != null ==> first != second
    requires first != null && second != null ==> Chain(first.head, ns) && Chain(second.head, ms)
    requires first != null && second != null ==> NoDup(ns) && NoDup(ms) && Nodes(ns) !! Nodes(ms)
    modifies first, second, Ends(ns), Ends(ms)
    ensures first != null && second != null ==> Chain(first.head, ns + ms) && second.head == first.head
    ensures first == null || second == null ==>
      && (first != null ==> unchanged(first)) && (second != null ==> unchanged(second))
      && unchanged(Ends(ns)) && unchanged(Ends(ms))
  {
    if first == null || second == null {
      return;
    }
    hide NoDup, Links;
    if first.head == null {
      NodesAreNoLists(ms, first);
      first.head := second.head;
      assert ns + ms == ms;
      return;
    }
    if second.head == null {
      NodesAreNoLists(ns, second);
      second.head := first.head;
      assert ns + ms == ns;
      return;
    }
    var iterationNode := first.head;
    ghost var k := 0;
    LinksIndices(ns);
    LinksIndices(ms);
    EndsUnique(ns);
    EndsUnique(ms);
    while iterationNode.next != null
      invariant 0 <= k < |ns| && iterationNode == ns[k]
      decreases |ns| - k
    {
      iterationNode := iterationNode.next;
      k := k + 1;
    }
    iterationNode.next := second.head;
    second.head.prev := iterationNode;
    NodesAreNoLists(ns + ms, second);
    SpliceIsChain(ns, ms);
    second.head := first.head;
  }

  // Where the walk stands after k nodes: each of them is in exactly one part,
  // and none of the nodes still ahead is in any.
  lemma PartsSeparate(ns: seq<Node>, k: nat, pivot: Node)
    requires AllKeyed(ns) && Keyed(pivot) && NoDup(ns) && k <= |ns|
    ensures Apart(Part(ns[..k], pivot, Below), Part(ns[..k], pivot, Equal), Part(ns[..k], pivot, Above))
    ensures forall side :: Nodes(Part(ns[..k], pivot, side)) <= Nodes(ns[..k]) <= Nodes(ns)
  {
    hide NoDup, Part, OnSide;
    var front := ns[..k];
    PartMembers(front, pivot, Below);
    PartMembers(front, pivot, Equal);
    PartMembers(front, pivot, Above);
    NoDupIndices(ns);
    NoDupIndices(front);
    forall side
      ensures Nodes(Part(front, pivot, side)) <= Nodes(front)
    {
      PartMembers(front, pivot, side);
    }
    forall n | n in Nodes(front)
      ensures n in Nodes(ns)
    {
      var i :| 0 <= i < k && front[i] == n;
      assert ns[i] == n;
    }
    forall n | n in Part(front, pivot, Below)
      ensures n !in Part(front, pivot, Equal) && n !in Part(front, pivot, Above)
    {
      OneSideOnly(front, pivot, n, Below, Equal);
      OneSideOnly(front, pivot, n, Below, Above);
    }
    forall n | n in Part(front, pivot, Equal)
      ensures n !in Part(front, pivot, Above)
    {
      OneSideOnly(front, pivot, n, Equal, Above);
    }
  }

  lemma OneSideOnly(ns: seq<Node>, pivot: Node, n: Node, sa: Side, sb: Side)
    requires AllKeyed(ns) && Keyed(pivot) && NoDup(ns)
    requires n in Part(ns, pivot, sa) && sa != sb
    ensures n !in Part(ns, pivot, sb)
  {
    PartMembers(ns, pivot, sa);
    PartMembers(ns, pivot, sb);
    OneSide(n, pivot);
  }

  ghost predicate Apart(lo: seq<Node>, eq: seq<Node>, hi: seq<Node>) {
    && NoDup(lo) && NoDup(eq) && NoDup(hi)
    && Nodes(lo) !! Nodes(eq)
    && Nodes(lo) !! Nodes(hi)
    && Nodes(eq) !! Nodes(hi)
  }

  // The forward links the walk still depends on: those of the nodes ahead.
  ghost predicate Ahead(rest: seq<Node>)
    reads Nodes(rest)
  {
    && (forall i {:trigger rest[i].next} :: 0 <= i < |rest| - 1 ==> rest[i].next == rest[i + 1])
    && (rest != [] ==> rest[|rest| - 1].next == null)
  }

  ghost function First(rest: seq<Node>): Node? {
    if rest == [] then null else rest[0]
  }

  lemma FirstIsHead(ns: seq<Node>, k: nat)
    requires k <= |ns|
    ensures First(ns[k..]) == if k < |ns| then ns[k] else null
  {
  }

  lemma AheadStep(ns: seq<Node>, k: nat)
    requires k < |ns| && Ahead(ns[k..])
    ensures ns[k].next == First(ns[k + 1..]) && Ahead(ns[k + 1..])
  {
    var rest := ns[k..];
    assert forall i {:trigger rest[i]} :: 1 <= i < |rest| ==> ns[k + 1..][i - 1] == rest[i];
  }

  lemma AheadUntouched(ns: seq<Node>, k: nat)
    requires NoDup(ns) && k < |ns|
    ensures Nodes(ns[k + 1..]) !! Nodes(ns[..k]) && ns[k] !in Nodes(ns[k + 1..]) && ns[k] !in Nodes(ns[..k])
    ensures Nodes(ns[..k + 1]) == Nodes(ns[..k]) + {ns[k]}
  {
    NoDupIndices(ns);
    assert ns[..k + 1] == ns[..k] + [ns[k]];
  }

  // The three tests of one round of the partitioning loop: the node goes to
  // the end of the one sub-list whose test it passes.
  method Place(node: Node, pivot: Node, lesser: List, equal: List, greater: List,
               ghost lo: seq<Node>, ghost eq: seq<Node>, ghost hi: seq<Node>)
    requires Keyed(node) && Keyed(pivot)
    requires lesser != equal && lesser != greater && equal != greater
    requires Chain(lesser.head, lo) && Chain(equal.head, eq) && Chain(greater.head, hi)
    requires Apart(lo, eq, hi) && node !in Nodes(lo) + Nodes(eq) + Nodes(hi)
    modifies lesser, equal, greater, Ends(lo), Ends(eq), Ends(hi), node
    ensures Chain(lesser.head, Extend(lo, node, pivot, Below))
    ensures Chain(equal.head, Extend(eq, node, pivot, Equal))
    ensures Chain(greater.head, Extend(hi, node, pivot, Above))
  {
    hide NoDup, Links, Chain, Same, Less, Greater;
    var iKey, key := KeyOf(node), KeyOf(pivot);
    KeyOrder(iKey, key);
    assert lo + [] == lo && eq + [] == eq && hi + [] == hi;
    if Same(iKey, key) {
      AddElem(equal, node, eq);
    }
    if Less(iKey, key) {
      AddElem(lesser, node, lo);
    }
    if Greater(iKey, key) {
      AddElem(greater, node, hi);
    }
  }

  lemma WalkStart(head: Node, ns: seq<Node>)
    requires ns != [] && head == ns[0] && Chain(head, ns) && AllKeyed(ns)
    ensures Keyed(head) && Ahead(ns[0..]) && First(ns[0..]) == head
    ensures forall side :: Part(ns[..0], head, side) == []
    ensures forall h: Node? {:trigger Chain(h, [])} :: h == null ==> Chain(h, [])
    ensures forall k {:trigger ns[..k]} :: 0 <= k <= |ns| ==> AllKeyed(ns[..k])
    ensures ns[..|ns|] == ns
  {
    LinksIndices(ns);
    assert ns[0..] == ns;
  }

  // The partitioning loop. Each node is detached from the old chain when it is
  // appended to its part; the successor saved beforehand keeps the walk alive.
  method Partition(pivot: Node, lesser: List, equal: List, greater: List, ghost ns: seq<Node>)
    requires ns != [] && pivot == ns[0] && Chain(pivot, ns) && NoDup(ns) && AllKeyed(ns)
    requires lesser != equal && lesser != greater && equal != greater
    requires lesser.head == null && equal.head == null && greater.head == null
    modifies lesser, equal, greater, Nodes(ns)
    ensures Chain(lesser.head, Part(ns, pivot, Below))
    ensures Chain(equal.head, Part(ns, pivot, Equal))
    ensures Chain(greater.head, Part(ns, pivot, Above))
  {
    hide *;
    WalkStart(pivot, ns);
    var iterationNode: Node? := pivot;
    ghost var k := 0;
    ghost var lo, eq, hi: seq<Node> := [], [], [];
    while iterationNode != null
      invariant 0 <= k <= |ns|
      invariant iterationNode == First(ns[k..])
      invariant Ahead(ns[k..])
      invariant lo == Part(ns[..k], pivot, Below)
      invariant eq == Part(ns[..k], pivot, Equal)
      invariant hi == Part(ns[..k], pivot, Above)
      invariant Chain(lesser.head, lo) && Chain(equal.head, eq) && Chain(greater.head, hi)
      decreases |ns| - k
    {
      FirstIsHead(ns, k);
      PartsSeparate(ns, k, pivot);
      PartStep(ns, k, pivot);
      AheadStep(ns, k);
      AheadUntouched(ns, k);
      NodesAreNoLists(ns[k + 1..], lesser);
      NodesAreNoLists(ns[k + 1..], equal);
      NodesAreNoLists(ns[k + 1..], greater);
      var next := iterationNode.next;
      ghost var ahead := Nodes(ns[k + 1..]);
      NodesAreElements(ns[k + 1..]);
      assert ahead !! Ends(lo) && ahead !! Ends(eq) && ahead !! Ends(hi);
      assert forall n :: n in ahead ==> allocated(n);
      Place(iterationNode, pivot, lesser, equal, greater, lo, eq, hi);
      lo := Extend(lo, iterationNode, pivot, Below);
      eq := Extend(eq, iterationNode, pivot, Equal);
      hi := Extend(hi, iterationNode, pivot, Above);
      iterationNode := next;
      k := k + 1;
    }
    FirstIsHead(ns, k);
  }

  method PerformQuickListSort(list: List, ghost ns: seq<Node>, ghost depth: nat) returns (ghost out: seq<Node>)
    requires Chain(list.head, ns) && NoDup(ns)
    requires |ns| >= 2 ==> AllKeyed(ns)
    requires Quick(ns, depth).Some?
    modifies list, Nodes(ns)
    ensures Quick(ns, depth) == Some(out)
    ensures Chain(list.head, out)
    decreases depth, 0
  {
    hide *;
    ChainLength(list.head, ns);
    if list.head == null || list.head.next == null {
      ShortListCloses(ns, depth);
      return ns;
    }
    QuickUnfolds(ns, depth);
    NodesAreElements(ns);
    var pivot := list.head;
    var lesser := new List();
    var equal := new List();
    var greater := new List();
    var result := new List();
    NodesAreNoLists(ns, result);
    Partition(pivot, lesser, equal, greater, ns);

    ghost var lo, eq, hi := Part(ns, pivot, Below), Part(ns, pivot, Equal), Part(ns, pivot, Above);
    PartMembers(ns, pivot, Below);
    PartMembers(ns, pivot, Equal);
    PartMembers(ns, pivot, Above);
    PartsSeparate(ns, |ns|, pivot);
    assert ns[..|ns|] == ns;
    NodesAreNoLists(lo, result);
    NodesAreNoLists(eq, result);
    NodesAreNoLists(hi, result);
    ghost var los, eqs, his := SortParts(lesser, equal, greater, lo, eq, hi, depth - 1);
    JoinParts(result, lesser, equal, greater, los, eqs, his);
    out := los + eqs + his;
    NodesAreNoLists(out, list);
    list.head := result.head;
  }

  // The three recursive calls.
  method SortParts(lesser: List, equal: List, greater: List,
                   ghost lo: seq<Node>, ghost eq: seq<Node>, ghost hi: seq<Node>, ghost depth: nat)
    returns (ghost los: seq<Node>, ghost eqs: seq<Node>, ghost his: seq<Node>)
    requires lesser != equal && lesser != greater && equal != greater
    requires Chain(lesser.head, lo) && Chain(equal.head, eq) && Chain(greater.head, hi)
    requires AllKeyed(lo) && AllKeyed(eq) && AllKeyed(hi) && Apart(lo, eq, hi)
    requires Quick(lo, depth).Some? && Quick(eq, depth).Some? && Quick(hi, depth).Some?
    modifies lesser, equal, greater, Nodes(lo), Nodes(eq), Nodes(hi)
    ensures Quick(lo, depth) == Some(los) && Quick(eq, depth) == Some(eqs) && Quick(hi, depth) == Some(his)
    ensures Chain(lesser.head, los) && Chain(equal.head, eqs) && Chain(greater.head, his)
    ensures Apart(los, eqs, his)
    ensures Nodes(los) == Nodes(lo) && Nodes(eqs) == Nodes(eq) && Nodes(his) == Nodes(hi)
    decreases depth, 1
  {
    hide Quick, NoDup, Links, Chain, AllKeyed;
    QuickPermutes(lo, depth);
    QuickPermutes(eq, depth);
    QuickPermutes(hi, depth);
    SameMultisetSameMembers(Quick(lo, depth).value, lo);
    SameMultisetSameMembers(Quick(eq, depth).value, eq);
    SameMultisetSameMembers(Quick(hi, depth).value, hi);
    NodesAreNoLists(eq, lesser);
    NodesAreNoLists(hi, lesser);
    NodesAreNoLists(hi, equal);
    NodesAreNoLists(lo, equal);
    NodesAreNoLists(lo, greater);
    NodesAreNoLists(eq, greater);
    los := PerformQuickListSort(lesser, lo, depth);
    assert unchanged(Nodes(eq)) && unchanged(Nodes(hi));
    eqs := PerformQuickListSort(equal, eq, depth);
    assert unchanged(Nodes(hi));
    his := PerformQuickListSort(greater, hi, depth);
  }

  // The three guarded concatenations that assemble the result.
  method JoinParts(result: List, lesser: List, equal: List, greater: List,
                   ghost lo: seq<Node>, ghost eq: seq<Node>, ghost hi: seq<Node>)
    requires result != lesser && result != equal && result != greater
    requires lesser != equal && lesser != greater && equal != greater
    requires result.head == null
    requires Chain(lesser.head, lo) && Chain(equal.head, eq) && Chain(greater.head, hi)
    requires Apart(lo, eq, hi)
    modifies result, lesser, equal, greater, Nodes(lo), Nodes(eq), Nodes(hi)
    ensures Chain(result.head, lo + eq + hi)
  {
    hide NoDup, Links, Chain;
    NodesAreNoLists(eq, result);
    NodesAreNoLists(eq, lesser);
    NodesAreNoLists(hi, result);
    NodesAreNoLists(hi, lesser);
    NodesAreNoLists(hi, equal);
    NoDupConcat(lo, eq);
    JoinIfAny(result, lesser, [], lo);
    assert [] + lo == lo;
    JoinIfAny(result, equal, lo, eq);
    JoinIfAny(result, greater, lo + eq, hi);
  }

  method JoinIfAny(result: List, part: List, ghost done: seq<Node>, ghost ns: seq<Node>)
    requires result != part && Chain(result.head, done) && Chain(part.head, ns)
    requires NoDup(done) && NoDup(ns) && Nodes(done) !! Nodes(ns)
    modifies result, part, Ends(done), Ends(ns)
    ensures Chain(result.head, done + ns)
  {
    if part.head != null {
      ListConcat(result, part, done, ns);
    } else {
      assert done + ns == done;
    }
  }

  lemma NoDupConcat(a: seq<Node>, b: seq<Node>)
    requires NoDup(a) && NoDup(b) && Nodes(a) !! Nodes(b)
    ensures NoDup(a + b) && Nodes(a + b) == Nodes(a) + Nodes(b)
  {
    NoDupIndices(a);
    NoDupIndices(b);
    NoDupIndices(a + b);
  }

  // The public entry. It counts the lines it prints: a complaint about a null
  // or empty list, or one per node that lacks a key (the sort runs regardless).
  method ListSort(list: List?, ghost ns: seq<Node>) returns (ghost out: seq<Node>, complaints: nat)
    requires list != null ==> Chain(list.head, ns) && NoDup(ns)
    requires list != null && |ns| >= 2 ==> AllKeyed(ns) && DistinctKeys(ns)
    modifies list, Nodes(ns)
    ensures list == null || ns == [] ==> out == ns && unchanged(Nodes(ns)) && complaints == 1
    ensures list == null || ns == [] ==> (list != null ==> unchanged(list))
    ensures list != null ==> Chain(list.head, out) && multiset(out) == multiset(ns)
    ensures list != null && |ns| >= 2 ==> AllKeyed(out) && InDirectoryOrder(out) && complaints == 0
    ensures list != null && |ns| == 1 ==> out == ns && complaints == if Keyed(ns[0]) then 0 else 1
  {
    complaints := 0;
    if list == null || list.head == null {
      complaints := 1;
      return ns, complaints;
    }
    LinksIndices(ns);
    var iterationNode := list.head;
    ghost var k := 0;
    while iterationNode != null
      invariant 0 <= k <= |ns| && iterationNode == (if k < |ns| then ns[k] else null)
      invariant complaints == if k > 0 && !Keyed(ns[0]) then 1 else 0
      decreases |ns| - k
    {
      if iterationNode.name.None? || iterationNode.surname.None? {
        complaints := complaints + 1;
      }
      iterationNode := iterationNode.next;
      k := k + 1;
    }
    if |ns| >= 2 {
      DistinctKeysClose(ns, |ns|);
      QuickSorts(ns, |ns|);
      IncreasingIsDirectoryOrder(Quick(ns, |ns|).value);
    } else {
      ShortListCloses(ns, |ns|);
    }
    QuickPermutes(ns, |ns|);
    out := PerformQuickListSort(list, ns, |ns|);
  }

  lemma UniqueAt(ns: seq<Node>, k: int)
    requires NoDup(ns)
    ensures 0 <= k < |ns| ==> forall i :: 0 <= i < |ns| && i != k ==> ns[i] != ns[k]
  {
    NoDupIndices(ns);
  }

  // A chain whose neighbours of position k point past it.
  lemma SkipIsChain(head: Node?, ns: seq<Node>, k: nat)
    requires k < |ns|
    requires forall i {:trigger ns[i].next} :: 0 <= i < |ns| - 1 && i != k - 1 && i != k ==> ns[i].next == ns[i + 1]
    requires forall i {:trigger ns[i].prev} :: 1 <= i < |ns| && i != k && i != k + 1 ==> ns[i].prev == ns[i - 1]
    requires head == (if k > 0 then ns[0] else if |ns| > 1 then ns[1] else null)
    requires k > 0 ==> ns[0].prev == null && ns[k - 1].next == (if k + 1 < |ns| then ns[k + 1] else null)
    requires k + 1 < |ns| ==> ns[|ns| - 1].next == null && ns[k + 1].prev == (if k > 0 then ns[k - 1] else null)
    ensures Chain(head, ns[..k] + ns[k + 1..])
  {
    LinksIndices(ns[..k] + ns[k + 1..]);
  }

  // Unlinks the node when the list holds it (at position `at`), and leaves
  // everything alone when it does not. The storage of the node is released.
  method RemoveElem(list: List?, node: Node?, ghost ns: seq<Node>) returns (ghost at: nat)
    requires list != null ==> Chain(list.head, ns) && NoDup(ns)
    modifies list, Nodes(ns)
    ensures list != null && node in ns ==> at < |ns| && ns[at] == node && Chain(list.head, ns[..at] + ns[at + 1..])
    ensures list == null || node !in ns ==> (list != null ==> unchanged(list)) && unchanged(Nodes(ns))
  {
    at := 0;
    if list == null {
      return;
    }
    if node == null {
      return;
    }
    LinksIndices(ns);
    hide Links, NoDup;
    var iterationNode := list.head;
    while iterationNode != null && iterationNode != node
      invariant 0 <= at <= |ns| && iterationNode == (if at < |ns| then ns[at] else null)
      invariant node !in ns[..at]
      decreases |ns| - at
    {
      iterationNode := iterationNode.next;
      at := at + 1;
    }
    if iterationNode == node {
      UniqueAt(ns, at - 1);
      UniqueAt(ns, at);
      UniqueAt(ns, at + 1);
      if iterationNode.prev == null {
        list.head := iterationNode.next;
        if list.head != null {
          list.head.prev := null;
        }
      } else {
        iterationNode.prev.next := iterationNode.next;
        if iterationNode.next != null {
          iterationNode.next.prev := iterationNode.prev;
        }
      }
      SkipIsChain(list.head, ns, at);
    }
  }

  // The walk of the search never compares a missing key.
  ghost predicate KeyedUpToMatch(ns: seq<Node>, name: string, surname: string) {
    ns != [] ==>
      && ns[0].name.Some?
      && (ns[0].name.value == name ==> ns[0].surname.Some?)
      && ((ns[0].name == Some(name) && ns[0].surname == Some(surname)) || KeyedUpToMatch(ns[1..], name, surname))
  }

  method FindElemByFullName(list: List?, name: Option<string>, surname: Option<string>, ghost ns: seq<Node>)
    returns (found: Node?)
    requires list != null ==> Chain(list.head, ns)
    requires list != null && name.Some? && surname.Some? ==> KeyedUpToMatch(ns, name.value, surname.value)
    ensures list == null || name in {None, Some("")} || surname in {None, Some("")} ==> found == null
    ensures list != null && name !in {None, Some("")} && surname !in {None, Some("")} ==>
      if found == null then forall n :: n in ns ==> n.name != name || n.surname != surname
      else
        && found.name == name && found.surname == surname
        && exists k :: 0 <= k < |ns| && ns[k] == found
             && forall i :: 0 <= i < k ==> ns[i].name != name || ns[i].surname != surname
  {
    if list == null {
      return null;
    }
    if name.None? || surname.None? || name == Some("") || surname == Some("") {
      return null;
    }
    LinksIndices(ns);
    found := list.head;
    ghost var k := 0;
    assert forall n: Node :: n.name.Some? && Strcmp(n.name.value, name.value) == 0 ==> n.name.value == name.value by {
      forall a: string ensures Strcmp(a, name.value) == 0 <==> a == name.value {
        StrcmpZeroIsEquality(a, name.value);
      }
    }
    while found != null &&
          (Strcmp(found.name.value, name.value) != 0 || Strcmp(found.surname.value, surname.value) != 0)
      invariant 0 <= k <= |ns| && found == (if k < |ns| then ns[k] else null)
      invariant KeyedUpToMatch(ns[k..], name.value, surname.value)
      invariant forall i :: 0 <= i < k ==> ns[i].name != name || ns[i].surname != surname
      decreases |ns| - k
    {
      StrcmpZeroIsEquality(found.name.value, name.value);
      if found.name.value == name.value {
        StrcmpZeroIsEquality(found.surname.value, surname.value);
      }
      found := found.next;
      k := k + 1;
    }
    if found != null {
      StrcmpZeroIsEquality(found.name.value, name.value);
      StrcmpZeroIsEquality(found.surname.value, surname.value);
      assert ns[k] == found;
    }
  }
}

// The file counter with one process per directory (lab3/zad2): every process
// adds its own regular files to the exit statuses of its children, and an exit
// status keeps eight bits.
module FileCounter {
  import opened Sums

  datatype Entry = Dir(entries: seq<Entry>) | Regular | Other

  // Regular files in the whole subtree.
  function TrueCount(es: seq<Entry>): nat
    decreases es, 0
  {
    if es == [] then 0 else EntryCount(es[0]) + TrueCount(es[1..])
  }

  function EntryCount(e: Entry): nat
    decreases e, 1
  {
    match e
    case Dir(entries) => TrueCount(entries)
    case Regular => 1
    case Other => 0
  }

  // ---------------------------------------------- the files, one route for each

  // A way down to a regular file, by positions in the directories.
  ghost predicate IsFileRoute(es: seq<Entry>, route: seq<nat>)
    decreases route
  {
    && route != [] && route[0] < |es|
    && if |route| == 1 then es[route[0]].Regular?
       else es[route[0]].Dir? && IsFileRoute(es[route[0]].entries, route[1..])
  }

  ghost predicate ListsFiles(es: seq<Entry>, routes: seq<seq<nat>>) {
    && (forall i :: 0 <= i < |routes| ==> IsFileRoute(es, routes[i]))
    && (forall i, j :: 0 <= i < j < |routes| ==> routes[i] != routes[j])
    && (forall r :: IsFileRoute(es, r) ==> r in routes)
  }

  function Through(k: nat, r: seq<nat>): seq<nat> {
    [k] + r
  }

  function Shifted(r: seq<nat>): seq<nat> {
    if r == [] then [] else [r[0] + 1] + r[1..]
  }

  // The count is the number of routes to regular files.
  lemma {:induction false} CountsFiles(es: seq<Entry>) returns (routes: seq<seq<nat>>)
    ensures |routes| == TrueCount(es) && ListsFiles(es, routes)
    decreases es, 0
  {
    if es == [] {
      routes := [];
    } else {
      var own := EntryFiles(es);
      var behind := CountsFiles(es[1..]);
      var shifted := seq(|behind|, i requires 0 <= i < |behind| => Shifted(behind[i]));
      routes := own + shifted;
      forall i | 0 <= i < |shifted|
        ensures IsFileRoute(es, shifted[i]) && shifted[i][0] > 0
      {
        ShiftedRoute(es, behind[i]);
      }
      forall i, j | 0 <= i < j < |shifted|
        ensures shifted[i] != shifted[j]
      {
        assert IsFileRoute(es[1..], behind[i]) && IsFileRoute(es[1..], behind[j]);
        BackShifted(behind[i]);
        BackShifted(behind[j]);
      }
      forall r | IsFileRoute(es, r)
        ensures r in routes
      {
        if r[0] == 0 {
          assert r in own;
        } else {
          var back := Back(r);
          ShiftedBack(r);
          assert es[1..][back[0]] == es[r[0]] && back[1..] == r[1..];
          assert IsFileRoute(es[1..], back) && back in behind;
          var i :| 0 <= i < |behind| && behind[i] == back;
          assert shifted[i] == r;
        }
      }
    }
  }

  function Back(r: seq<nat>): seq<nat>
    requires r != [] && r[0] > 0
  {
    [r[0] - 1] + r[1..]
  }

  lemma BackShifted(r: seq<nat>)
    requires r != []
    ensures Shifted(r) != [] && Shifted(r)[0] > 0 && Back(Shifted(r)) == r
  {
    assert Shifted(r)[1..] == r[1..];
  }

  lemma ShiftedBack(r: seq<nat>)
    requires r != [] && r[0] > 0
    ensures Back(r)[0] == r[0] - 1 && Back(r)[1..] == r[1..] && Shifted(Back(r)) == r
  {
  }

  lemma ShiftedRoute(es: seq<Entry>, r: seq<nat>)
    requires es != [] && IsFileRoute(es[1..], r)
    ensures IsFileRoute(es, Shifted(r)) && Shifted(r)[0] > 0
  {
    assert es[1..][r[0]] == es[r[0] + 1] && Shifted(r)[1..] == r[1..];
  }

  // The routes through the first entry.
  lemma EntryFiles(es: seq<Entry>) returns (routes: seq<seq<nat>>)
    requires es != []
    ensures |routes| == EntryCount(es[0])
    ensures forall i :: 0 <= i < |routes| ==> IsFileRoute(es, routes[i]) && routes[i][0] == 0
    ensures forall i, j :: 0 <= i < j < |routes| ==> routes[i] != routes[j]
    ensures forall r :: IsFileRoute(es, r) && r[0] == 0 ==> r in routes
    decreases es[0], 1
  {
    match es[0]
    case Regular =>
      routes := [[0]];
      forall r | IsFileRoute(es, r) && r[0] == 0
        ensures r in routes
      {
        assert r == [0];
      }
    case Other => routes := [];
    case Dir(entries) =>
      var inner := CountsFiles(entries);
      routes := seq(|inner|, i requires 0 <= i < |inner| => Through(0, inner[i]));
      forall i | 0 <= i < |routes|
        ensures IsFileRoute(es, routes[i]) && routes[i][0] == 0
      {
        assert routes[i][1..] == inner[i] && IsFileRoute(entries, inner[i]);
      }
      forall i, j | 0 <= i < j < |routes|
        ensures routes[i] != routes[j]
      {
        assert routes[i][1..] == inner[i] && routes[j][1..] == inner[j];
      }
      forall r | IsFileRoute(es, r) && r[0] == 0
        ensures r in routes
      {
        assert IsFileRoute(entries, r[1..]) && r[1..] in inner;
        var i :| 0 <= i < |inner| && inner[i] == r[1..];
        assert routes[i] == r;
      }
  }

  // What the process of a directory computes before it exits, and what of it the
  // parent process gets to see.
  function Total(es: seq<Entry>): nat
    decreases es, 0
  {
    if es == [] then 0
    else
      (match es[0]
       case Dir(entries) => ExitStatus(entries)
       case Regular => 1
       case Other => 0)
      + Total(es[1..])
  }

  function ExitStatus(entries: seq<Entry>): nat
    decreases entries, 1
  {
    Total(entries) % 256
  }

  // What the truncations have dropped on the way up is a multiple of 256.
  lemma {:induction false} Dropped(es: seq<Entry>) returns (k: nat)
    ensures TrueCount(es) == Total(es) + 256 * k
    decreases es
  {
    if es == [] {
      k := 0;
    } else {
      k := Dropped(es[1..]);
      match es[0]
      case Dir(entries) =>
        var inner := Dropped(entries);
        k := k + inner + Total(entries) / 256;
      case Regular =>
      case Other =>
    }
  }

  // The exit status of a process is the size of its subtree modulo 256.
  lemma ExitStatusIsCountModulo256(es: seq<Entry>)
    ensures ExitStatus(es) == TrueCount(es) % 256
  {
    hide Total, TrueCount;
    var k := Dropped(es);
    WholeTurns(Total(es), k);
  }

  lemma WholeTurns(x: nat, k: nat)
    ensures (x + 256 * k) % 256 == x % 256
  {
  }

  ghost predicate SmallSubdirectories(es: seq<Entry>) {
    forall i :: 0 <= i < |es| && es[i].Dir? ==> TrueCount(es[i].entries) < 256
  }

  // The total is never too large, and it is right exactly when every immediate
  // subdirectory holds fewer than 256 files.
  lemma {:induction false} TotalExactIff(es: seq<Entry>)
    ensures Total(es) <= TrueCount(es)
    ensures Total(es) == TrueCount(es) <==> SmallSubdirectories(es)
  {
    if es != [] {
      TotalExactIff(es[1..]);
      assert SmallSubdirectories(es) <==>
        (es[0].Dir? ==> TrueCount(es[0].entries) < 256) && SmallSubdirectories(es[1..]) by {
        assert forall i :: 1 <= i < |es| ==> es[i] == es[1..][i - 1];
      }
      match es[0]
      case Dir(entries) => ExitStatusIsCountModulo256(entries);
      case Regular =>
      case Other =>
    }
  }

  // --------------------------------------------------------------- the process

  ghost function Itself(): nat -> int {
    (x: nat) => x
  }

  lemma SumOne(x: nat)
    ensures Sum(Itself(), [x]) == x
  {
    assert [x][..0] == [];
  }

  lemma SumWithout(statuses: seq<nat>, k: nat)
    requires k < |statuses|
    ensures Sum(Itself(), statuses) == Sum(Itself(), statuses[..k] + statuses[k + 1..]) + statuses[k]
  {
    hide Sum;
    var front, back := statuses[..k], statuses[k + 1..];
    SumConcat(Itself(), front, back);
    SumConcat(Itself(), statuses[..k + 1], back);
    SumConcat(Itself(), front, [statuses[k]]);
    SumOne(statuses[k]);
    assert statuses == statuses[..k + 1] + back && statuses[..k + 1] == front + [statuses[k]];
  }

  // The process of a directory: readdir and fork, then wait for the children in
  // whatever order they end, then exit.
  method CountDirectory(entries: seq<Entry>) returns (status: nat)
    ensures status == ExitStatus(entries)
    decreases entries
  {
    var numFiles := 0;
    var running: seq<nat> := [];      // what the children will exit with
    var i := 0;
    while i < |entries|
      invariant 0 <= i <= |entries|
      invariant numFiles + Sum(Itself(), running) + Total(entries[i..]) == Total(entries)
      invariant forall k :: 0 <= k < |running| ==> running[k] < 256
    {
      assert entries[i..][0] == entries[i] && entries[i..][1..] == entries[i + 1..];
      match entries[i] {
        case Dir(inner) =>
          var child := CountDirectory(inner);
          SumConcat(Itself(), running, [child]);
          SumOne(child);
          running := running + [child];
        case Regular => numFiles := numFiles + 1;
        case Other =>
      }
      i := i + 1;
    }
    var childFiles := 0;
    while running != []
      invariant numFiles + childFiles + Sum(Itself(), running) == Total(entries)
      invariant forall k :: 0 <= k < |running| ==> running[k] < 256
      decreases |running|
    {
      var k :| 0 <= k < |running|;
      SumWithout(running, k);
      childFiles := childFiles + running[k];
      running := running[..k] + running[k + 1..];
    }
    status := (numFiles + childFiles) % 256;
  }
}

// The directory crawler with one shared, growing path buffer (lab2/zad2).
module TreeCrawler {
  import opened Text

  // What readdir and lstat report. `permitted` is the verdict of compare_access;
  // an entry that is neither a directory nor a regular file is a File with
  // regular == false.
  datatype Entry =
    | Dir(name: string, entries: seq<Entry>)
    | File(name: string, regular: bool, permitted: bool, size: int)

  // Calls made with the contents of the path buffer, and lines printed.
  datatype Event =
    | OpenDir(path: string)
    | Lstat(path: string)
    | PrintDir(indent: nat, name: string)
    | PrintFile(indent: nat, name: string, size: int)

  predicate Skipped(e: Entry) {
    e.name == "." || e.name == ".."
  }

  // Entry names are C strings.
  predicate CleanName(name: string) {
    NUL !in name
  }

  predicate Clean(es: seq<Entry>)
    decreases es, 0
  {
    es != [] ==> CleanEntry(es[0]) && Clean(es[1..])
  }

  predicate CleanEntry(e: Entry)
    decreases e, 1
  {
    CleanName(e.name) && (e.Dir? ==> Clean(e.entries))
  }

  // ------------------------------------------------------------ the listing

  // The pre-order walk of the entries of a directory at `path`.
  function Listing(es: seq<Entry>, path: string, level: nat): seq<Event>
    decreases es, 0
  {
    if es == [] then [] else EntryListing(es[0], path, level) + Listing(es[1..], path, level)
  }

  function EntryListing(e: Entry, path: string, level: nat): seq<Event>
    decreases e, 1
  {
    if Skipped(e) then []
    else
      var here := path + "/" + e.name;
      [Lstat(here)] +
      match e
      case Dir(name, entries) => [PrintDir(level, name), OpenDir(here)] + Listing(entries, here, level + 1)
      case File(name, regular, permitted, size) =>
        if regular && permitted then [PrintFile(level, name, size)] else []
  }

  lemma EntryListingIs(e: Entry, path: string, level: nat)
    ensures Skipped(e) ==> EntryListing(e, path, level) == []
    ensures !Skipped(e) && e.Dir? ==>
      EntryListing(e, path, level) ==
        [Lstat(path + "/" + e.name), PrintDir(level, e.name), OpenDir(path + "/" + e.name)]
        + Listing(e.entries, path + "/" + e.name, level + 1)
    ensures !Skipped(e) && e.File? ==>
      EntryListing(e, path, level) ==
        [Lstat(path + "/" + e.name)]
        + if e.regular && e.permitted then [PrintFile(level, e.name, e.size)] else []
  {
  }

  // ------------------------------------------ the listing, entry by entry

  // The entry at the end of a route of positions, if neither "." nor ".." is on it.
  ghost predicate Leads(es: seq<Entry>, route: seq<nat>, target: Entry)
    decreases route
  {
    && route != [] && route[0] < |es| && es[route[0]].name != "." && es[route[0]].name != ".."
    && (if |route| == 1 then es[route[0]] == target
        else es[route[0]].Dir? && Leads(es[route[0]].entries, route[1..], target))
  }

  ghost function PathAlong(es: seq<Entry>, route: seq<nat>, path: string): string
    decreases route
  {
    if route == [] || route[0] >= |es| then path
    else
      var e := es[route[0]];
      var here := path + "/" + e.name;
      if e.Dir? then PathAlong(e.entries, route[1..], here) else here
  }

  // The path of an entry is that of its directory, a slash, and its name.
  lemma {:induction false} PathExtends(es: seq<Entry>, route: seq<nat>, dir: Entry, k: nat, path: string)
    requires Leads(es, route, dir) && dir.Dir? && k < |dir.entries|
    ensures PathAlong(es, route + [k], path) == PathAlong(es, route, path) + "/" + dir.entries[k].name
    decreases route
  {
    var e := es[route[0]];
    var here := path + "/" + e.name;
    assert (route + [k])[1..] == route[1..] + [k];
    if |route| == 1 {
      PathOfOne(dir.entries, k, here);
      assert PathAlong(es, route, path) == PathAlong(e.entries, [], here) == here;
    } else {
      PathExtends(e.entries, route[1..], dir, k, here);
    }
  }

  lemma PathOfOne(es: seq<Entry>, k: nat, path: string)
    requires k < |es|
    ensures PathAlong(es, [k], path) == path + "/" + es[k].name
  {
    assert [k][1..] == [];
  }

  // The events ahead of those of entry k.
  ghost function Ahead(es: seq<Entry>, k: nat, path: string, level: nat): nat
    requires k <= |es|
  {
    if k == 0 then 0 else |EntryListing(es[0], path, level)| + Ahead(es[1..], k - 1, path, level)
  }

  // Where in the listing the entry at the end of a route is examined.
  ghost function Position(es: seq<Entry>, route: seq<nat>, path: string, level: nat): nat
    decreases route
  {
    if route == [] || route[0] >= |es| then 0
    else
      var e := es[route[0]];
      Ahead(es, route[0], path, level) +
      if |route| > 1 && e.Dir? then 3 + Position(e.entries, route[1..], path + "/" + e.name, level + 1) else 0
  }

  lemma {:induction false} EventOfEntry(es: seq<Entry>, path: string, level: nat, k: nat, i: nat)
    requires k < |es| && i < |EntryListing(es[k], path, level)|
    ensures Ahead(es, k, path, level) + i < |Listing(es, path, level)|
    ensures Listing(es, path, level)[Ahead(es, k, path, level) + i] == EntryListing(es[k], path, level)[i]
  {
    hide EntryListing;
    var own, behind := EntryListing(es[0], path, level), Listing(es[1..], path, level);
    assert Listing(es, path, level) == own + behind;
    if k == 0 {
      assert Ahead(es, 0, path, level) == 0;
      assert (own + behind)[i] == own[i];
    } else {
      EventOfEntry(es[1..], path, level, k - 1, i);
      var there := Ahead(es[1..], k - 1, path, level) + i;
      assert Ahead(es, k, path, level) + i == |own| + there;
      assert es[k] == es[1..][k - 1] && (own + behind)[|own| + there] == behind[there];
    }
  }

  lemma {:induction false} EntriesInOrder(es: seq<Entry>, path: string, level: nat, k: nat, l: nat)
    requires k < l <= |es|
    ensures Ahead(es, k, path, level) + |EntryListing(es[k], path, level)| <= Ahead(es, l, path, level)
  {
    if k > 0 {
      EntriesInOrder(es[1..], path, level, k - 1, l - 1);
    }
  }

  // What the listing says about an entry examined at position p: a directory is
  // printed by name and opened, a permitted regular file is printed with its size.
  ghost predicate SaysAt(listing: seq<Event>, p: nat, here: string, level: nat, target: Entry) {
    && p < |listing| && listing[p] == Lstat(here)
    && match target
       case Dir(name, _) =>
         p + 2 < |listing| && listing[p + 1] == PrintDir(level, name) && listing[p + 2] == OpenDir(here)
       case File(name, regular, permitted, size) =>
         regular && permitted ==> p + 1 < |listing| && listing[p + 1] == PrintFile(level, name, size)
  }

  lemma SaysFurtherOn(es: seq<Entry>, path: string, level: nat, k: nat,
                      p: nat, here: string, depth: nat, target: Entry)
    requires k < |es| && SaysAt(EntryListing(es[k], path, level), p, here, depth, target)
    ensures SaysAt(Listing(es, path, level), Ahead(es, k, path, level) + p, here, depth, target)
  {
    hide Listing, EntryListing, Ahead;
    EventOfEntry(es, path, level, k, p);
    if target.Dir? || (target.regular && target.permitted) {
      EventOfEntry(es, path, level, k, p + 1);
    }
    if target.Dir? {
      EventOfEntry(es, path, level, k, p + 2);
    }
  }

  // Whatever a route leads to is examined under its own path at its position; the
  // next event prints it, at the indentation of its depth, if it is to be listed;
  // a directory is then opened.
  lemma {:induction false} EntryHasItsPlace(es: seq<Entry>, path: string, level: nat, route: seq<nat>, target: Entry)
    requires Leads(es, route, target)
    ensures SaysAt(Listing(es, path, level), Position(es, route, path, level), PathAlong(es, route, path),
                   level + |route| - 1, target)
    decreases route
  {
    hide Listing, EntryListing, Ahead;
    var k, e := route[0], es[route[0]];
    var here := path + "/" + e.name;
    EntryListingIs(e, path, level);
    if |route| == 1 {
      FirstOfEntry(e, path, level);
      SaysFurtherOn(es, path, level, k, 0, here, level, e);
    } else {
      EntryHasItsPlace(e.entries, here, level + 1, route[1..], target);
      var p := Position(e.entries, route[1..], here, level + 1);
      SaysFurtherOn(es, path, level, k, 3 + p, PathAlong(es, route, path), level + |route| - 1, target);
    }
  }

  lemma FirstOfEntry(e: Entry, path: string, level: nat)
    requires !Skipped(e)
    ensures SaysAt(EntryListing(e, path, level), 0, path + "/" + e.name, level, e)
  {
    hide Listing;
  }

  // A directory before what is in it, and siblings in the order of readdir.
  ghost predicate Precedes(a: seq<nat>, b: seq<nat>)
    decreases a
  {
    b != [] && (a == [] || a[0] < b[0] || (a[0] == b[0] && Precedes(a[1..], b[1..])))
  }

  lemma {:induction false} PreOrder(es: seq<Entry>, path: string, level: nat,
                                    a: seq<nat>, x: Entry, b: seq<nat>, y: Entry)
    requires Leads(es, a, x) && Leads(es, b, y) && Precedes(a, b)
    ensures Position(es, a, path, level) < Position(es, b, path, level)
    decreases a
  {
    hide Listing, EntryListing, Ahead;
    var e := es[a[0]];
    var here := path + "/" + e.name;
    EntryListingIs(e, path, level);
    if |a| > 1 {
      EntryHasItsPlace(e.entries, here, level + 1, a[1..], x);
      if a[0] == b[0] {
        PreOrder(e.entries, here, level + 1, a[1..], x, b[1..], y);
      }
    }
    if a[0] < b[0] {
      EntriesInOrder(es, path, level, a[0], b[0]);
    }
  }

  // What the event at position i says about the entry a route leads to.
  ghost predicate EventAbout(es: seq<Entry>, path: string, level: nat, i: nat, route: seq<nat>, target: Entry) {
    var p := Position(es, route, path, level);
    && Leads(es, route, target)
    && (|| i == p
        || (i == p + 1 && (target.Dir? || (target.regular && target.permitted)))
        || (i == p + 2 && target.Dir?))
  }

  // Conversely there is nothing else in the listing: every event is one of these
  // for some entry.
  lemma {:induction false} EveryEventHasItsEntry(es: seq<Entry>, path: string, level: nat, i: nat)
    returns (route: seq<nat>, target: Entry)
    requires i < |Listing(es, path, level)|
    ensures EventAbout(es, path, level, i, route, target)
    decreases es, 0
  {
    hide EntryListing;
    var e := es[0];
    var here, own := path + "/" + e.name, |EntryListing(e, path, level)|;
    EntryListingIs(e, path, level);
    if i >= own {
      route, target := EveryEventHasItsEntry(es[1..], path, level, i - own);
      ShiftRoute(es, path, level, route, target);
      route := [route[0] + 1] + route[1..];
    } else if e.Dir? && i >= 3 {
      route, target := EveryEventHasItsEntry(e.entries, here, level + 1, i - 3);
      assert ([0] + route)[1..] == route;
      route := [0] + route;
    } else {
      route, target := [0], e;
    }
  }

  lemma ShiftRoute(es: seq<Entry>, path: string, level: nat, route: seq<nat>, target: Entry)
    requires es != [] && Leads(es[1..], route, target)
    ensures var shifted := [route[0] + 1] + route[1..];
      && Leads(es, shifted, target)
      && Position(es, shifted, path, level)
         == |EntryListing(es[0], path, level)| + Position(es[1..], route, path, level)
  {
    var shifted := [route[0] + 1] + route[1..];
    assert shifted[1..] == route[1..] && es[shifted[0]] == es[1..][route[0]];
  }

  // ------------------------------------------------------------- C strings

  ghost predicate Terminated(chars: seq<char>) {
    NUL in chars
  }

  ghost function CString(chars: seq<char>): (s: string)
    requires Terminated(chars)
    ensures |s| < |chars| && s == chars[..|s|] && chars[|s|] == NUL && NUL !in s
  {
    UpToNulEnds(chars);
    UpToNul(chars)
  }

  lemma CStringIs(chars: seq<char>, s: string)
    requires NUL !in s && |s| < |chars| && chars[..|s|] == s && chars[|s|] == NUL
    ensures Terminated(chars) && CString(chars) == s
  {
    UpToNulIs(chars, s);
  }

  // -------------------------------------------------------------- the crawler

  class Crawler {
    var pathBuffer: array<char>
    var pathBufferSize: nat
    var indentationLvl: nat
    var events: seq<Event>

    ghost predicate Valid()
      reads this, pathBuffer
    {
      pathBuffer.Length == pathBufferSize > 0 && Terminated(pathBuffer[..])
    }

    ghost function Path(): string
      requires Valid()
      reads this, pathBuffer
    {
      CString(pathBuffer[..])
    }

    constructor (path: string, size: nat)
      requires CleanName(path) && |path| < size
      ensures Valid() && Path() == path && indentationLvl == 0 && events == []
      ensures fresh(pathBuffer)
    {
      pathBuffer := new char[size](i => if 0 <= i < |path| then path[i] else NUL);
      pathBufferSize := size;
      indentationLvl := 0;
      events := [];
      new;
      assert pathBuffer[..|path|] == path;
      CStringIs(pathBuffer[..], path);
    }

    method PathLength() returns (length: nat)
      requires Valid()
      ensures length == |Path()|
    {
      length := 0;
      while pathBuffer[length] != NUL
        invariant length <= |Path()|
        decreases |Path()| - length
      {
        length := length + 1;
      }
    }

    // The path a system call gets to see.
    method ReadPath() returns (path: string)
      requires Valid()
      ensures path == Path()
    {
      var length := PathLength();
      path := pathBuffer[..length];
    }

    // realloc to twice the size: the old contents, then whatever is there.
    method DoubleBuffer()
      requires Valid()
      modifies this`pathBuffer, this`pathBufferSize
      ensures Valid() && fresh(pathBuffer) && Path() == old(Path())
      ensures pathBufferSize == 2 * old(pathBufferSize)
    {
      ghost var path := Path();
      var smaller := pathBuffer;
      pathBufferSize := pathBufferSize * 2;
      var bigger := new char[pathBufferSize](i => if 0 <= i < smaller.Length then NUL else '?');
      var i := 0;
      while i < smaller.Length
        invariant 0 <= i <= smaller.Length < bigger.Length == pathBufferSize == 2 * old(pathBufferSize)
        invariant bigger[..i] == smaller[..i]
      {
        bigger[i] := smaller[i];
        i := i + 1;
      }
      assert bigger[..|path|] == bigger[..smaller.Length][..|path|] == path;
      assert bigger[|path|] == bigger[..smaller.Length][|path|];
      CStringIs(bigger[..], path);
      pathBuffer := bigger;
    }

    // Lines 116-122: room for the path, a slash, the name and its terminator.
    method MakeRoom(pathLen: nat, name: string)
      requires Valid() && pathLen == |Path()|
      modifies this`pathBuffer, this`pathBufferSize
      ensures Valid() && (pathBuffer == old(pathBuffer) || fresh(pathBuffer)) && Path() == old(Path())
      ensures pathLen + |name| + 2 <= pathBufferSize
    {
      while pathLen + |name| + 2 > pathBufferSize
        invariant Valid() && (pathBuffer == old(pathBuffer) || fresh(pathBuffer)) && Path() == old(Path())
        decreases pathLen + |name| + 2 - pathBufferSize
      {
        DoubleBuffer();
      }
    }

    // Line 124 and the strcpy after it. The caller has made room.
    method AppendName(pathLen: nat, name: string)
      requires Valid() && pathLen == |Path()| && CleanName(name)
      requires pathLen + |name| + 2 <= pathBufferSize
      modifies pathBuffer
      ensures Valid() && Path() == old(Path()) + "/" + name
    {
      ghost var path := Path();
      pathBuffer[pathLen] := '/';
      var i := 0;
      while i < |name|
        invariant 0 <= i <= |name|
        invariant pathBuffer[..pathLen + 1 + i] == path + "/" + name[..i]
      {
        pathBuffer[pathLen + 1 + i] := name[i];
        i := i + 1;
      }
      pathBuffer[pathLen + 1 + |name|] := NUL;
      assert pathBuffer[..pathLen + 1 + |name|] == path + "/" + name;
      assert CleanName(path) && NUL !in "/";
      CStringIs(pathBuffer[..], path + "/" + name);
    }

    // Line 152: cut the name off again.
    method Truncate(pathLen: nat)
      requires Valid() && pathLen < |Path()|
      modifies pathBuffer
      ensures Valid() && Path() == old(Path())[..pathLen]
    {
      ghost var path := Path();
      pathBuffer[pathLen] := NUL;
      assert pathBuffer[..pathLen] == path[..pathLen];
      CStringIs(pathBuffer[..], path[..pathLen]);
    }

    // traverse_recursively on the directory whose path is in the buffer and whose
    // entries readdir returns in this order. Opening and lstat succeed.
    method TraverseRecursively(entries: seq<Entry>)
      requires Valid() && Clean(entries)
      modifies this, pathBuffer
      ensures Valid() && (pathBuffer == old(pathBuffer) || fresh(pathBuffer))
      ensures Path() == old(Path()) && indentationLvl == old(indentationLvl)
      ensures events == old(events) + [OpenDir(old(Path()))] + Listing(entries, old(Path()), old(indentationLvl))
      decreases entries, 0
    {
      hide CString, Terminated, EntryListing, CleanEntry;
      ghost var path, level := Path(), indentationLvl;
      var openedPath := ReadPath();
      events := events + [OpenDir(openedPath)];
      ghost var before := events;
      var k := 0;
      while k < |entries|
        invariant 0 <= k <= |entries| && Valid() && Clean(entries[k..])
        invariant pathBuffer == old(pathBuffer) || fresh(pathBuffer)
        invariant Path() == path && indentationLvl == level
        invariant events + Listing(entries[k..], path, level) == before + Listing(entries, path, level)
      {
        assert entries[k..][0] == entries[k] && entries[k..][1..] == entries[k + 1..];
        ghost var soFar := events;
        VisitEntry(entries[k]);
        assert events + Listing(entries[k + 1..], path, level)
            == soFar + (EntryListing(entries[k], path, level) + Listing(entries[k + 1..], path, level));
        k := k + 1;
      }
    }

    // The body of the loop for one entry.
    method VisitEntry(e: Entry)
      requires Valid() && CleanEntry(e)
      modifies this, pathBuffer
      ensures Valid() && (pathBuffer == old(pathBuffer) || fresh(pathBuffer))
      ensures Path() == old(Path()) && indentationLvl == old(indentationLvl)
      ensures events == old(events) + EntryListing(e, old(Path()), old(indentationLvl))
      decreases e, 2
    {
      hide CString, Terminated, Listing, EntryListing;
      EntryListingIs(e, Path(), indentationLvl);
      if Skipped(e) {
        return;
      }
      ghost var path := Path();
      var pathLen := PathLength();
      MakeRoom(pathLen, e.name);
      AppendName(pathLen, e.name);
      VisitNamed(e, path);
      assert (path + "/" + e.name)[..pathLen] == path;
      Truncate(pathLen);
    }

    // Lines 128-150: the buffer holds the entry's own path.
    method VisitNamed(e: Entry, ghost path: string)
      requires Valid() && CleanEntry(e) && !Skipped(e) && Path() == path + "/" + e.name
      modifies this, pathBuffer
      ensures Valid() && (pathBuffer == old(pathBuffer) || fresh(pathBuffer))
      ensures Path() == old(Path()) && indentationLvl == old(indentationLvl)
      ensures events == old(events) + EntryListing(e, path, old(indentationLvl))
      decreases e, 1
    {
      hide CString, Terminated, Listing, EntryListing;
      EntryListingIs(e, path, indentationLvl);
      var examined := ReadPath();
      events := events + [Lstat(examined)];
      match e {
        case Dir(name, entries) =>
          events := events + [PrintDir(indentationLvl, name)];
          indentationLvl := indentationLvl + 1;
          TraverseRecursively(entries);
          indentationLvl := indentationLvl - 1;
        case File(name, regular, permitted, size) =>
          if regular && permitted {
            events := events + [PrintFile(indentationLvl, name, size)];
          }
      }
    }
  }
}

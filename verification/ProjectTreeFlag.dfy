// When the project listing says that it is truncated, and when it is complete.
module ProjectTreeFlag {
  import opened Wrappers
  import opened ProjectTree

  // ------------------------------------------------------------------
  // What the flag says
  // ------------------------------------------------------------------

  // The root and everything below it in level order: the order in which places are met.
  function Line(root: Node): seq<Place> { [Place([], root)] + Levels([Place([], root)]) }

  lemma {:induction false} KidsOfAllAppend(a: seq<Place>, b: seq<Place>)
    ensures KidsOfAll(a + b) == KidsOfAll(a) + KidsOfAll(b)
  {
    if a == [] {
      assert a + b == b;
    } else {
      assert (a + b)[1..] == a[1..] + b;
      KidsOfAllAppend(a[1..], b);
      Regroup(Kids(a[0]), KidsOfAll(a[1..]), KidsOfAll(b));
    }
  }

  lemma {:induction false} OnlyFoldersHaveKids(ps: seq<Place>)
    ensures KidsOfAll(Folders(ps)) == KidsOfAll(ps)
  {
    if ps != [] {
      OnlyFoldersHaveKids(ps[1..]);
      if ps[0].node.Directory? {
        assert ([ps[0]] + Folders(ps[1..]))[1..] == Folders(ps[1..]);
      }
    }
  }

  // Level order lists the kids of the level and of itself, in that order.
  lemma {:induction false} LevelsShowKids(level: seq<Place>)
    ensures Levels(level) == KidsOfAll(level + Levels(level))
    decreases Weight(level), |level|
  {
    var next := KidsOfAll(level);
    KidsAreLighter(level);
    KidsOfAllAppend(level, Levels(level));
    if level == [] || next == [] {
      assert next == [];
    } else {
      var deeper := Levels(Folders(next));
      LevelsShowKids(Folders(next));
      KidsOfAllAppend(next, deeper);
      KidsOfAllAppend(Folders(next), deeper);
      OnlyFoldersHaveKids(next);
    }
  }

  lemma LineShowsKids(root: Node)
    ensures Line(root)[1..] == KidsOfAll(Line(root))
  {
    LevelsShowKids([Place([], root)]);
  }

  // How many places have been met once the first y places have been opened.
  function Met(line: seq<Place>, y: nat): nat
    requires y <= |line|
  {
    1 + |KidsOfAll(line[..y])|
  }

  predicate IsLine(line: seq<Place>) { line != [] && line[1..] == KidsOfAll(line) }

  lemma {:induction false} KidsOfLast(line: seq<Place>, y: nat)
    requires y < |line|
    ensures KidsOfAll(line[..y + 1]) == KidsOfAll(line[..y]) + Kids(line[y])
  {
    assert line[..y + 1] == line[..y] + [line[y]];
    KidsOfAllAppend(line[..y], [line[y]]);
    assert [line[y]][1..] == [];
    assert KidsOfAll([line[y]]) == Kids(line[y]) + [];
  }

  lemma SplitRest(line: seq<Place>, a: seq<Place>, b: seq<Place>)
    requires line != [] && line[1..] == a + b
    ensures 1 + |a| <= |line| && line[1 + |a|..] == b
  {
    assert line[1 + |a|..] == line[1..][|a|..];
  }

  // Behind the places met so far stand the kids of the places still to be opened.
  lemma {:induction false} RestIsKids(line: seq<Place>, y: nat)
    requires IsLine(line) && y <= |line|
    ensures Met(line, y) <= |line| && line[Met(line, y)..] == KidsOfAll(line[y..])
  {
    assert line == line[..y] + line[y..];
    KidsOfAllAppend(line[..y], line[y..]);
    SplitRest(line, KidsOfAll(line[..y]), KidsOfAll(line[y..]));
  }

  lemma {:induction false} RestUnfolds(line: seq<Place>, y: nat)
    requires IsLine(line) && y < |line|
    ensures Met(line, y) <= |line| && line[Met(line, y)..] == Kids(line[y]) + KidsOfAll(line[y + 1..])
  {
    RestIsKids(line, y);
    assert line[y..][0] == line[y] && line[y..][1..] == line[y + 1..];
  }

  lemma {:induction false} MetNext(line: seq<Place>, y: nat)
    requires IsLine(line) && y < |line|
    ensures Met(line, y) <= Met(line, y + 1) == Met(line, y) + |Kids(line[y])| <= |line|
    ensures line[Met(line, y)..Met(line, y + 1)] == Kids(line[y])
  {
    RestUnfolds(line, y);
    KidsOfLast(line, y);
  }

  // Whatever is still unopened has been met already.
  lemma {:induction false} AlwaysAhead(line: seq<Place>, y: nat)
    requires IsLine(line) && y < |line|
    ensures y < Met(line, y) <= |line|
  {
    RestIsKids(line, y);
    var m := Met(line, y);
    if m <= y {
      KidsAreLighter(line[y..]);
      assert line[m..] == line[m..][..y - m] + line[y..];
      WeightAppend(line[m..][..y - m], line[y..]);
      assert false;
    }
  }

  // The places met below the root once the first y places have been opened, and the walk
  // at that point as long as the limit is not met.
  function Seen(line: seq<Place>, y: nat): seq<Place>
    requires y <= |line|
  {
    KidsOfAll(line[..y])
  }

  function WalkAt(q: Query, line: seq<Place>, y: nat): Walk
    requires y <= |line| && y <= Met(line, y) <= |line|
  {
    Walk(Listed(q, Seen(line, y)), Folders(line[y..Met(line, y)]))
  }

  lemma {:induction false} SeenNext(q: Query, line: seq<Place>, y: nat)
    requires y < |line|
    ensures Listed(q, Seen(line, y + 1)) == Listed(q, Seen(line, y)) + Listed(q, Kids(line[y]))
  {
    KidsOfLast(line, y);
    ListedAppend(q, Seen(line, y), Kids(line[y]));
  }

  lemma {:induction false} SeenIsLine(line: seq<Place>, y: nat)
    requires IsLine(line) && y <= |line|
    ensures Met(line, y) <= |line| && Seen(line, y) == line[1..Met(line, y)]
  {
    assert line == line[..y] + line[y..];
    KidsOfAllAppend(line[..y], line[y..]);
    assert line[1..][..|Seen(line, y)|] == line[1..Met(line, y)];
  }

  lemma {:induction false} FoldersFrom(line: seq<Place>, y: nat, m: nat)
    requires y < m <= |line|
    ensures Folders(line[y..m])
            == if line[y].node.Directory? then [line[y]] + Folders(line[y + 1..m]) else Folders(line[y + 1..m])
  {
    assert line[y..m][0] == line[y] && line[y..m][1..] == line[y + 1..m];
  }

  // The places met so far and then some more.
  lemma {:induction false} JoinedLists(q: Query, line: seq<Place>, from: nat, m: nat, x: nat, kids: seq<Place>)
    requires from <= m <= x <= |line| && line[m..x] == kids
    ensures Listed(q, line[from..x]) == Listed(q, line[from..m]) + Listed(q, kids)
    ensures Folders(line[from..x]) == Folders(line[from..m]) + Folders(kids)
  {
    assert line[from..x] == line[from..m] + line[m..x];
    ListedAppend(q, line[from..m], line[m..x]);
    FoldersAppend(line[from..m], line[m..x]);
  }

  // A scan that meets the limit stops at the place that meets it.
  lemma {:induction false} ScanStops(q: Query, limit: int, children: seq<Place>, w: Walk) returns (c: nat)
    requires forall p <- children :: p.path != []
    requires |w.entries| < limit <= |w.entries + Listed(q, Unskipped(children))|
    ensures var kids := Unskipped(children);
            c < |kids| && Matches(q, kids[c].path) && |w.entries| + |Listed(q, kids[..c])| == limit - 1 &&
            Scan(q, limit, children, w).pending == w.pending + Folders(kids[..c])
  {
    var first, rest := children[0], children[1..];
    if Skipped(first.path) {
      c := ScanStops(q, limit, rest, w);
    } else {
      var kids := Unskipped(rest);
      var queue := if first.node.Directory? then w.pending + [first] else w.pending;
      if Matches(q, first.path) && |w.entries| + 1 >= limit {
        c := 0;
      } else {
        var next := Walk(if Matches(q, first.path) then w.entries + [EntryOf(first)] else w.entries, queue);
        OneMore(q, first, kids, w);
        c := ScanStops(q, limit, rest, next);
        OneMore(q, first, kids[..c], w);
        assert ([first] + kids)[..c + 1] == [first] + kids[..c];
        c := c + 1;
      }
    }
  }

  lemma {:induction false} PassFile(q: Query, line: seq<Place>, y: nat)
    requires IsLine(line) && y < |line| && line[y].node.File?
    ensures y + 1 <= Met(line, y + 1) == Met(line, y) <= |line| && WalkAt(q, line, y + 1) == WalkAt(q, line, y)
  {
    AlwaysAhead(line, y);
    MetNext(line, y);
    KidsOfLast(line, y);
    assert Kids(line[y]) == [] && Seen(line, y) + [] == Seen(line, y);
    FoldersFrom(line, y, Met(line, y));
  }

  // Opening a folder below the limit scans its children.
  lemma {:induction false} OpensNext(q: Query, limit: int, line: seq<Place>, y: nat)
    requires IsLine(line) && y < |line| && line[y].node.Directory? && |Listed(q, Seen(line, y))| < limit
    ensures y < Met(line, y) <= |line|
    ensures Walked(q, limit, WalkAt(q, line, y))
            == Walked(q, limit, Scan(q, limit, Opened(line[y]),
                                     Walk(Listed(q, Seen(line, y)), Folders(line[y + 1..Met(line, y)]))))
  {
    AlwaysAhead(line, y);
    FoldersFrom(line, y, Met(line, y));
    var w := WalkAt(q, line, y);
    assert w.pending[0] == line[y] && w.pending[1..] == Folders(line[y + 1..Met(line, y)]);
  }

  lemma {:induction false} NextWalk(q: Query, line: seq<Place>, y: nat)
    requires IsLine(line) && y < |line|
    ensures y < Met(line, y) <= |line| && y + 1 <= Met(line, y + 1) <= |line|
    ensures WalkAt(q, line, y + 1)
            == Walk(Listed(q, Seen(line, y)) + Listed(q, Kids(line[y])),
                    Folders(line[y + 1..Met(line, y)]) + Folders(Kids(line[y])))
  {
    AlwaysAhead(line, y);
    MetNext(line, y);
    SeenNext(q, line, y);
    JoinedLists(q, line, y + 1, Met(line, y), Met(line, y + 1), Kids(line[y]));
  }

  lemma {:induction false} PassFolder(q: Query, limit: int, line: seq<Place>, y: nat)
    requires IsLine(line) && y < |line| && line[y].node.Directory? && |Listed(q, Seen(line, y + 1))| < limit
    ensures y < Met(line, y) <= |line| && y + 1 <= Met(line, y + 1) <= |line|
    ensures Walked(q, limit, WalkAt(q, line, y)) == Walked(q, limit, WalkAt(q, line, y + 1))
  {
    NextWalk(q, line, y);
    SeenNext(q, line, y);
    OpensNext(q, limit, line, y);
    ScanMeans(q, limit, Opened(line[y]), Walk(Listed(q, Seen(line, y)), Folders(line[y + 1..Met(line, y)])));
  }

  // Opening the folder in which the limit is met, at its kid c.
  lemma {:induction false} StopInFolder(q: Query, limit: int, line: seq<Place>, y: nat) returns (c: nat)
    requires IsLine(line) && y < |line| && line[y].node.Directory?
    requires |Listed(q, Seen(line, y))| < limit <= |Listed(q, Seen(line, y + 1))|
    ensures y < Met(line, y) <= |line| && c < |Kids(line[y])| && Matches(q, Kids(line[y])[c].path)
    ensures |Listed(q, Seen(line, y))| + |Listed(q, Kids(line[y])[..c])| == limit - 1
    ensures Walked(q, limit, WalkAt(q, line, y)).pending
            == Folders(line[y + 1..Met(line, y)]) + Folders(Kids(line[y])[..c])
  {
    SeenNext(q, line, y);
    OpensNext(q, limit, line, y);
    var rest := Walk(Listed(q, Seen(line, y)), Folders(line[y + 1..Met(line, y)]));
    c := ScanStops(q, limit, Opened(line[y]), rest);
    ScanMeans(q, limit, Opened(line[y]), rest);
  }

  lemma SliceAt(line: seq<Place>, m: nat, end: nat, kids: seq<Place>, c: nat, x: nat)
    requires m <= end <= |line| && line[m..end] == kids && c < |kids| && x == m + c
    ensures m <= x < |line| && line[x] == kids[c] && line[m..x] == kids[..c]
  {
    assert line[m..end][c] == line[x] && line[m..end][..c] == line[m..x];
  }

  // That kid's place in the line.
  lemma {:induction false} KidInLine(line: seq<Place>, y: nat, c: nat) returns (x: nat)
    requires IsLine(line) && y < |line| && c < |Kids(line[y])|
    ensures x == Met(line, y) + c && y < Met(line, y) <= x < |line|
    ensures line[x] == Kids(line[y])[c] && line[Met(line, y)..x] == Kids(line[y])[..c]
  {
    AlwaysAhead(line, y);
    MetNext(line, y);
    x := Met(line, y) + c;
    SliceAt(line, Met(line, y), Met(line, y + 1), Kids(line[y]), c, x);
  }

  predicate IsKid(p: Place, t: Place) { exists c :: 0 <= c < |Kids(p)| && Kids(p)[c] == t }

  predicate FolderBetween(line: seq<Place>, parent: nat, x: nat)
    requires x <= |line|
  {
    exists z :: parent < z < x && line[z].node.Directory?
  }

  lemma {:induction false} FoldersBetween(line: seq<Place>, a: nat, b: nat)
    requires a < b <= |line|
    ensures Folders(line[a + 1..b]) != [] <==> FolderBetween(line, a, b)
  {
    var part := line[a + 1..b];
    if Folders(part) != [] {
      var f := Folders(part)[0];
      FoldersHold(part, f);
      var i :| 0 <= i < |part| && part[i] == f;
      assert line[a + 1 + i] == f;
    }
    if z :| a < z < b && line[z].node.Directory? {
      assert part[z - a - 1] == line[z];
      FoldersHold(part, line[z]);
    }
  }

  // The limit is met at x, a kid of the place `parent`; something is still pending then if
  // there is a folder between the two.
  ghost predicate StopsAt(q: Query, limit: int, line: seq<Place>, pending: seq<Place>, x: nat, parent: nat) {
    parent < x < |line| && Matches(q, line[x].path) && |Listed(q, line[1..x])| == limit - 1 &&
    IsKid(line[parent], line[x]) && (pending != [] <==> FolderBetween(line, parent, x))
  }

  lemma {:induction false} KidStops(q: Query, limit: int, line: seq<Place>, pending: seq<Place>, y: nat, m: nat,
                                    kids: seq<Place>, c: nat, x: nat)
    requires x == m + c && y < m <= x < |line| && c < |kids| && kids == Kids(line[y])
    requires line[x] == kids[c] && line[m..x] == kids[..c]
    requires Matches(q, kids[c].path) && |Listed(q, line[1..m])| + |Listed(q, kids[..c])| == limit - 1
    requires pending == Folders(line[y + 1..m]) + Folders(kids[..c])
    ensures StopsAt(q, limit, line, pending, x, y)
  {
    JoinedLists(q, line, 1, m, x, kids[..c]);
    JoinedLists(q, line, y + 1, m, x, kids[..c]);
    FoldersBetween(line, y, x);
  }

  lemma {:induction false} StopHere(q: Query, limit: int, line: seq<Place>, y: nat) returns (x: nat)
    requires IsLine(line) && y < |line| && line[y].node.Directory?
    requires |Listed(q, Seen(line, y))| < limit <= |Listed(q, Seen(line, y + 1))|
    ensures y < Met(line, y) <= |line|
    ensures StopsAt(q, limit, line, Walked(q, limit, WalkAt(q, line, y)).pending, x, y)
  {
    var c := StopInFolder(q, limit, line, y);
    x := KidInLine(line, y, c);
    SeenIsLine(line, y);
    KidStops(q, limit, line, Walked(q, limit, WalkAt(q, line, y)).pending, y, Met(line, y), Kids(line[y]), c, x);
  }

  lemma {:induction false} PassOne(q: Query, limit: int, line: seq<Place>, y: nat)
    requires IsLine(line) && y < |line| && |Listed(q, Seen(line, y + 1))| < limit
    ensures y < Met(line, y) <= |line| && y + 1 <= Met(line, y + 1) <= |line|
    ensures Walked(q, limit, WalkAt(q, line, y)) == Walked(q, limit, WalkAt(q, line, y + 1))
  {
    if line[y].node.File? {
      PassFile(q, line, y);
      AlwaysAhead(line, y);
    } else {
      PassFolder(q, limit, line, y);
    }
  }

  lemma {:induction false} FileShowsNothing(q: Query, line: seq<Place>, y: nat)
    requires y < |line| && line[y].node.File?
    ensures Listed(q, Seen(line, y + 1)) == Listed(q, Seen(line, y))
  {
    assert Kids(line[y]) == [];
    SeenNext(q, line, y);
  }

  lemma {:induction false} WalkStops(q: Query, limit: int, line: seq<Place>, y: nat) returns (x: nat, parent: nat)
    requires IsLine(line) && y < |line| && y <= Met(line, y) <= |line|
    requires |Listed(q, Seen(line, y))| < limit <= |Listed(q, Seen(line, |line|))|
    ensures StopsAt(q, limit, line, Walked(q, limit, WalkAt(q, line, y)).pending, x, parent)
    decreases |line| - y
  {
    if |Listed(q, Seen(line, y + 1))| < limit {
      PassOne(q, limit, line, y);
      assert y + 1 != |line|;
      x, parent := WalkStops(q, limit, line, y + 1);
    } else {
      if line[y].node.File? { FileShowsNothing(q, line, y); }
      x := StopHere(q, limit, line, y);
      parent := y;
    }
  }

  lemma {:induction false} WalkStarts(q: Query, root: Node)
    requires root.Directory?
    ensures var line := Line(root);
            IsLine(line) && Met(line, 0) == 1 && Seen(line, 0) == [] &&
            WalkAt(q, line, 0) == Walk([], [Place([], root)]) && Seen(line, |line|) == Levels([Place([], root)])
  {
    var line := Line(root);
    LineShowsKids(root);
    assert line[..|line|] == line && line[..0] == [];
    FoldersFrom(line, 0, 1);
    assert line[1..1] == [];
  }

  lemma NothingInFile(q: Query, root: Node)
    requires root.File?
    ensures FullListing(q, root) == []
  {
    assert Kids(Place([], root)) == [];
    assert KidsOfAll([Place([], root)]) == [];
  }

  // When the limit can be met, the listing ends at the limit-th match, and it is reported
  // as truncated exactly when a folder stands, in level order, behind that match's parent
  // and before the match.
  lemma TruncatedIff(q: Query, root: Node, limit: int) returns (x: nat, parent: nat)
    requires 0 < limit <= |FullListing(q, root)|
    ensures parent < x < |Line(root)| && IsKid(Line(root)[parent], Line(root)[x])
    ensures Matches(q, Line(root)[x].path) && |Listed(q, Line(root)[1..x])| == limit - 1
    ensures ListingOf(q, root, limit).truncated <==> FolderBetween(Line(root), parent, x)
  {
    if root.File? { NothingInFile(q, root); }
    WalkStarts(q, root);
    x, parent := WalkStops(q, limit, Line(root), 0);
  }

  // Below the limit it never is, and whatever the flag says, the listing is the full one
  // exactly when the full one has at most the limit's entries.
  lemma CompleteIff(q: Query, root: Node, limit: int)
    ensures |FullListing(q, root)| < limit ==> !ListingOf(q, root, limit).truncated
    ensures ListingOf(q, root, limit).entries == FullListing(q, root) <==>
            |FullListing(q, root)| <= (if limit < 0 then 0 else limit)
  {
    WalkedFromRoot(q, root, limit);
    WalkedEnds(q, limit, Walk([], [Place([], root)]));
  }

  lemma {:induction false} WalkedEnds(q: Query, limit: int, w: Walk)
    ensures var r := Walked(q, limit, w); r.pending != [] ==> |r.entries| >= limit
    decreases Weight(w.pending)
  {
    if w.pending != [] && |w.entries| < limit {
      var next := Scan(q, limit, Opened(w.pending[0]), Walk(w.entries, w.pending[1..]));
      ScanWeighs(q, limit, Opened(w.pending[0]), Walk(w.entries, w.pending[1..]));
      KidsWeigh(w.pending[0]);
      WalkedEnds(q, limit, next);
    }
  }

  // ------------------------------------------------------------------
  // What the flag does not say
  // ------------------------------------------------------------------

  // A root without folders is never reported as truncated, so there the listing
  // is silently incomplete exactly when it has more matches than the limit.
  lemma FilesAreNeverTruncated(q: Query, root: Node, limit: int)
    requires root.Directory? && root.readable && forall c <- root.children :: c.File?
    requires 0 < limit
    ensures !ListingOf(q, root, limit).truncated
    ensures ListingOf(q, root, limit).entries == FullListing(q, root) <==> |FullListing(q, root)| <= limit
  {
    var top := [Place([], root)];
    WalkedFromRoot(q, root, limit);
    assert Place([], root).node == root;
    ScanQueuesFoldersOnly(q, limit, Opened(top[0]), Walk([], []));
    assert top[1..] == [];
    var w := Scan(q, limit, Opened(top[0]), Walk([], top[1..]));
    assert w.pending == [];
    assert Walked(q, limit, Walk([], top)) == Walked(q, limit, w) == w;
  }

  lemma ScanQueuesFoldersOnly(q: Query, limit: int, children: seq<Place>, w: Walk)
    requires forall p <- children :: p.path != [] && p.node.File?
    ensures Scan(q, limit, children, w).pending == w.pending
  {}

  lemma ExampleLevels(top: Place, a: Place, b: Place)
    requires Kids(top) == [a, b] && a.node == Directory("app", true, []) && b.node.File?
    ensures Levels([top]) == [a, b]
  {
    assert [top][1..] == [] && Kids(top) + KidsOfAll([]) == [a, b];
    assert [a, b][1..] == [b] && [b][1..] == [];
    assert Folders([b]) == [];
    assert Folders([a, b]) == [a] + Folders([b]) == [a];
    assert Opened(a) == [] && Kids(a) == [] && KidsOfAll([a]) == [];
    assert Levels([a]) == [];
  }

  lemma ExampleListed(q: Query, a: Place, b: Place)
    requires q.needle == ""
    ensures Listed(q, [a, b]) == [EntryOf(a), EntryOf(b)]
  {
    assert [a, b][1..] == [b] && [b][1..] == [];
    assert Listed(q, [b]) == [EntryOf(b)];
  }

  lemma ExampleWalk(q: Query, top: Place, a: Place, b: Place)
    requires q.needle == "" && Opened(top) == [a, b] && a.path != [] && b.path != []
    requires !Skipped(a.path) && !Skipped(b.path) && a.node.Directory? && top.node.Directory?
    ensures Walked(q, 2, Walk([], [top])) == Walk([EntryOf(a), EntryOf(b)], [a])
  {
    assert [a, b][1..] == [b] && [top][1..] == [];
    assert Matches(q, a.path) && Matches(q, b.path);
    assert [] + [EntryOf(a)] == [EntryOf(a)] && [] + [a] == [a];
    assert [EntryOf(a)] + [EntryOf(b)] == [EntryOf(a), EntryOf(b)];
    var w := Scan(q, 2, [a, b], Walk([], []));
    assert w == Scan(q, 2, [b], Walk([EntryOf(a)], [a]));
    assert w == Walk([EntryOf(a), EntryOf(b)], [a]);
    assert Walked(q, 2, Walk([], [top])) == Walked(q, 2, w);
  }

  lemma ExampleKids(top: Place, a: Place, b: Place)
    requires top == Place([], Directory("", true, [a.node, b.node]))
    requires a == Place(["app"], Directory("app", true, [])) && b == Place(["run"], File("run"))
    ensures Opened(top) == [a, b] == Kids(top) && !Skipped(a.path) && !Skipped(b.path)
  {
    assert "app" !in IGNORED && "run" !in IGNORED && "app" !in SECRET_FILE_NAMES && "run" !in SECRET_FILE_NAMES;
    assert top.node.children[0] == a.node && top.node.children[1] == b.node;
    assert [] + ["app"] == ["app"] && [] + ["run"] == ["run"];
    assert [a, b][1..] == [b] && [b][1..] == [];
    assert Unskipped([b]) == [b];
  }

  // The limit is met by the two entries there are, yet the flag is set: the
  // empty folder was still waiting to be opened.
  lemma TruncatedYetComplete(q: Query)
    requires q.needle == ""
    ensures var root := Directory("", true, [Directory("app", true, []), File("run")]);
            ListingOf(q, root, 2) == Listing(FullListing(q, root), true)
  {
    var a, b := Place(["app"], Directory("app", true, [])), Place(["run"], File("run"));
    var top := Place([], Directory("", true, [a.node, b.node]));
    ExampleKids(top, a, b);
    ExampleLevels(top, a, b);
    ExampleListed(q, a, b);
    ExampleWalk(q, top, a, b);
  }
}

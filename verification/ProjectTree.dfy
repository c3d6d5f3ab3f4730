// The bounded, breadth-first project listing.
module ProjectTree {
  import Text
  import opened Wrappers

  type Path = seq<string>

  // A directory's children stand in the order of the listing: folders first,
  // then by name. A directory that cannot be listed is not readable.
  datatype Node =
    | File(name: string)
    | Directory(name: string, readable: bool, children: seq<Node>)

  // A node and its path relative to the project's root.
  datatype Place = Place(path: Path, node: Node)

  datatype Entry = Entry(path: Path, isFolder: bool)

  // The search word (stripped and in lower case) and the case folding.
  datatype Query = Query(needle: string, lower: string -> string)

  const IGNORED: set<string> :=
    {".git", ".venv", "venv", "node_modules", "__pycache__", "dist", "build", "coverage",
     ".mypy_cache", ".pytest_cache"}

  const SECRET_FILE_NAMES: set<string> := {".env", ".env.local", ".env.production", "id_rsa", "id_ed25519"}

  predicate Skipped(path: Path)
    requires path != []
  {
    (exists i :: 0 <= i < |path| && path[i] in IGNORED) || path[|path| - 1] in SECRET_FILE_NAMES
  }

  // Hidden anywhere on the way down, not only at the last step.
  predicate Visible(path: Path) {
    forall i :: 0 <= i < |path| ==> path[i] !in IGNORED && path[i] !in SECRET_FILE_NAMES
  }

  function Joined(path: Path): string {
    if path == [] then "."
    else if |path| == 1 then path[0]
    else Joined(path[..|path| - 1]) + "/" + path[|path| - 1]
  }

  predicate Matches(q: Query, path: Path) {
    q.needle == "" || Text.Contains(q.lower(Joined(path)), q.needle)
  }

  function EntryOf(p: Place): Entry { Entry(p.path, p.node.Directory?) }

  // ------------------------------------------------------------------
  // The places of a tree, level by level
  // ------------------------------------------------------------------

  function Under(path: Path, nodes: seq<Node>): (r: seq<Place>)
    ensures |r| == |nodes|
    ensures forall i :: 0 <= i < |r| ==> r[i] == Place(path + [nodes[i].name], nodes[i])
  {
    seq(|nodes|, i requires 0 <= i < |nodes| => Place(path + [nodes[i].name], nodes[i]))
  }

  // What opening a folder shows: nothing when it cannot be read.
  function Opened(p: Place): seq<Place> {
    if p.node.Directory? && p.node.readable then Under(p.path, p.node.children) else []
  }

  function Unskipped(ps: seq<Place>): seq<Place>
    requires forall p <- ps :: p.path != []
  {
    if ps == [] then []
    else if Skipped(ps[0].path) then Unskipped(ps[1..])
    else [ps[0]] + Unskipped(ps[1..])
  }

  function Folders(ps: seq<Place>): seq<Place> {
    if ps == [] then []
    else if ps[0].node.Directory? then [ps[0]] + Folders(ps[1..])
    else Folders(ps[1..])
  }

  function Listed(q: Query, ps: seq<Place>): seq<Entry> {
    if ps == [] then []
    else if Matches(q, ps[0].path) then [EntryOf(ps[0])] + Listed(q, ps[1..])
    else Listed(q, ps[1..])
  }

  function Kids(p: Place): seq<Place> { Unskipped(Opened(p)) }

  function KidsOfAll(level: seq<Place>): seq<Place> {
    if level == [] then [] else Kids(level[0]) + KidsOfAll(level[1..])
  }

  // Level order: everything one step down, then everything two steps down, ...
  function Levels(level: seq<Place>): seq<Place>
    decreases Weight(level), |level|
  {
    var next := KidsOfAll(level);
    KidsAreLighter(level);
    if level == [] || next == [] then next else next + Levels(Folders(next))
  }

  function FullListing(q: Query, root: Node): seq<Entry> { Listed(q, Levels([Place([], root)])) }

  function Size(n: Node): nat
    decreases n
  {
    match n
    case File(_) => 1
    case Directory(_, _, children) => 1 + Sizes(children)
  }

  function Sizes(ns: seq<Node>): nat
    decreases ns
  {
    if ns == [] then 0 else Size(ns[0]) + Sizes(ns[1..])
  }

  function Weight(ps: seq<Place>): nat {
    if ps == [] then 0 else Size(ps[0].node) + Weight(ps[1..])
  }

  lemma WeightAppend(a: seq<Place>, b: seq<Place>)
    ensures Weight(a + b) == Weight(a) + Weight(b)
  {
    if a == [] {
      assert a + b == b;
    } else {
      assert (a + b)[1..] == a[1..] + b;
    }
  }

  lemma UnskippedWeighs(ps: seq<Place>)
    requires forall p <- ps :: p.path != []
    ensures Weight(Unskipped(ps)) <= Weight(ps)
  {
    if ps != [] {
      WeightAppend(if Skipped(ps[0].path) then [] else [ps[0]], Unskipped(ps[1..]));
    }
  }

  lemma FoldersWeigh(ps: seq<Place>)
    ensures Weight(Folders(ps)) <= Weight(ps)
  {
    if ps != [] {
      WeightAppend(if ps[0].node.Directory? then [ps[0]] else [], Folders(ps[1..]));
    }
  }

  lemma UnderWeighs(path: Path, nodes: seq<Node>)
    ensures Weight(Under(path, nodes)) == Sizes(nodes)
  {
    if nodes != [] {
      assert Under(path, nodes)[1..] == Under(path, nodes[1..]);
    }
  }

  lemma KidsWeigh(p: Place)
    ensures Weight(Kids(p)) < Size(p.node)
  {
    UnskippedWeighs(Opened(p));
    if p.node.Directory? {
      UnderWeighs(p.path, p.node.children);
    }
  }

  lemma KidsAreLighter(level: seq<Place>)
    ensures Weight(Folders(KidsOfAll(level))) <= Weight(KidsOfAll(level)) <= Weight(level)
    ensures level != [] ==> Weight(KidsOfAll(level)) < Weight(level)
  {
    FoldersWeigh(KidsOfAll(level));
    if level != [] {
      KidsAreLighter(level[1..]);
      KidsWeigh(level[0]);
      WeightAppend(Kids(level[0]), KidsOfAll(level[1..]));
    }
  }

  // ------------------------------------------------------------------
  // What level order contains
  // ------------------------------------------------------------------

  function Child(p: Place, i: nat): Place
    requires p.node.Directory? && i < |p.node.children|
  {
    Place(p.path + [p.node.children[i].name], p.node.children[i])
  }

  // `t` lies in the tree under `p`, behind readable folders only.
  ghost predicate Below(p: Place, t: Place)
    decreases p.node
  {
    p.node.Directory? && p.node.readable &&
    exists i :: 0 <= i < |p.node.children| && (t == Child(p, i) || Below(Child(p, i), t))
  }

  lemma BelowExtends(p: Place, t: Place)
    requires Below(p, t)
    ensures p.path < t.path
    decreases p.node
  {
    var i :| 0 <= i < |p.node.children| && (t == Child(p, i) || Below(Child(p, i), t));
    if t != Child(p, i) {
      BelowExtends(Child(p, i), t);
    }
  }

  lemma UnskippedHolds(ps: seq<Place>, t: Place)
    requires forall p <- ps :: p.path != []
    ensures t in Unskipped(ps) <==> t in ps && !Skipped(t.path)
  {}

  lemma FoldersHold(ps: seq<Place>, t: Place)
    ensures t in Folders(ps) <==> t in ps && t.node.Directory?
  {}

  lemma KidsOfAllHold(level: seq<Place>, t: Place)
    ensures t in KidsOfAll(level) <==> exists p :: p in level && t in Kids(p)
  {
    if level != [] {
      KidsOfAllHold(level[1..], t);
    }
  }

  ghost predicate BelowOneOf(level: seq<Place>, t: Place) { exists p :: p in level && Below(p, t) }

  lemma KidIsVisible(p: Place, t: Place)
    requires Visible(p.path)
    ensures t in Kids(p) <==>
            p.node.Directory? && p.node.readable && Visible(t.path) &&
            exists i :: 0 <= i < |p.node.children| && t == Child(p, i)
  {
    UnskippedHolds(Opened(p), t);
    if t in Opened(p) {
      var i :| 0 <= i < |Opened(p)| && Opened(p)[i] == t;
      assert t == Child(p, i);
    }
    if p.node.Directory? && p.node.readable && exists i :: 0 <= i < |p.node.children| && t == Child(p, i) {
      var i :| 0 <= i < |p.node.children| && t == Child(p, i);
      assert Opened(p)[i] == t;
      assert t.path[..|t.path| - 1] == p.path;
      assert forall j :: 0 <= j < |p.path| ==> t.path[j] == p.path[j];
    }
  }

  lemma OneStepDown(p: Place, t: Place)
    requires Visible(p.path) && Visible(t.path)
    ensures Below(p, t) <==> t in Kids(p) || exists c :: c in Kids(p) && Below(c, t)
  {
    if Below(p, t) {
      var i :| 0 <= i < |p.node.children| && (t == Child(p, i) || Below(Child(p, i), t));
      var child := Child(p, i);
      if t != child {
        BelowExtends(child, t);
        assert forall j :: 0 <= j < |child.path| ==> child.path[j] == t.path[j];
      }
      KidIsVisible(p, child);
    }
    if t in Kids(p) {
      KidIsVisible(p, t);
    }
    forall c | c in Kids(p) && Below(c, t) ensures Below(p, t) {
      KidIsVisible(p, c);
    }
  }

  lemma LevelDown(level: seq<Place>, t: Place)
    requires (forall p <- level :: Visible(p.path)) && Visible(t.path)
    ensures BelowOneOf(level, t) <==>
            t in KidsOfAll(level) || BelowOneOf(Folders(KidsOfAll(level)), t)
  {
    var next := KidsOfAll(level);
    forall p | p in level ensures Below(p, t) <==> t in Kids(p) || exists c :: c in Kids(p) && Below(c, t) {
      OneStepDown(p, t);
    }
    if BelowOneOf(level, t) {
      var p :| p in level && Below(p, t);
      if t in Kids(p) {
        KidsOfAllHold(level, t);
      } else {
        var c :| c in Kids(p) && Below(c, t);
        KidsOfAllHold(level, c);
        FoldersHold(next, c);
      }
    }
    if t in next {
      KidsOfAllHold(level, t);
    }
    if BelowOneOf(Folders(next), t) {
      var c :| c in Folders(next) && Below(c, t);
      FoldersHold(next, c);
      KidsOfAllHold(level, c);
    }
  }

  lemma LevelIsVisible(level: seq<Place>)
    requires forall p <- level :: Visible(p.path)
    ensures forall t <- KidsOfAll(level) :: Visible(t.path)
    ensures forall t <- Folders(KidsOfAll(level)) :: Visible(t.path)
  {
    forall t | t in KidsOfAll(level) ensures Visible(t.path) {
      KidsOfAllHold(level, t);
      var p :| p in level && t in Kids(p);
      KidIsVisible(p, t);
    }
    forall t | t in Folders(KidsOfAll(level)) ensures Visible(t.path) {
      FoldersHold(KidsOfAll(level), t);
    }
  }

  // Level order misses nothing visible and shows nothing hidden.
  lemma {:induction false} LevelsHold(level: seq<Place>, t: Place)
    requires forall p <- level :: Visible(p.path)
    ensures t in Levels(level) <==> Visible(t.path) && BelowOneOf(level, t)
    decreases Weight(level), |level|
  {
    var next := KidsOfAll(level);
    KidsAreLighter(level);
    LevelIsVisible(level);
    if Visible(t.path) {
      LevelDown(level, t);
    }
    if level != [] && next != [] {
      LevelsHold(Folders(next), t);
    }
  }

  // ------------------------------------------------------------------
  // Exactly once, nearer places first
  // ------------------------------------------------------------------

  predicate SiblingsDiffer(n: Node)
    decreases n
  {
    n.Directory? ==>
      (forall i, j :: 0 <= i < j < |n.children| ==> n.children[i].name != n.children[j].name) &&
      forall c <- n.children :: SiblingsDiffer(c)
  }

  predicate PathsDiffer(ps: seq<Place>) {
    forall i, j :: 0 <= i < j < |ps| ==> ps[i].path != ps[j].path
  }

  predicate AtDepth(ps: seq<Place>, depth: nat) { forall p <- ps :: |p.path| == depth }

  predicate Tidy(level: seq<Place>, depth: nat) {
    PathsDiffer(level) && AtDepth(level, depth) && forall p <- level :: SiblingsDiffer(p.node)
  }

  lemma FoldersTidy(ps: seq<Place>, depth: nat)
    requires Tidy(ps, depth)
    ensures Tidy(Folders(ps), depth)
  {
    if ps != [] {
      FoldersTidy(ps[1..], depth);
      var head := if ps[0].node.Directory? then [ps[0]] else [];
      forall x, y | x in head && y in Folders(ps[1..]) ensures x.path != y.path {
        FoldersHold(ps[1..], y);
      }
    }
  }

  lemma UnskippedTidy(ps: seq<Place>, depth: nat)
    requires depth > 0 && Tidy(ps, depth)
    ensures Tidy(Unskipped(ps), depth)
  {
    if ps != [] {
      UnskippedTidy(ps[1..], depth);
      var head := if Skipped(ps[0].path) then [] else [ps[0]];
      forall x, y | x in head && y in Unskipped(ps[1..]) ensures x.path != y.path {
        UnskippedHolds(ps[1..], y);
      }
    }
  }

  lemma {:induction false} KidsTidy(p: Place)
    requires SiblingsDiffer(p.node)
    ensures Tidy(Kids(p), |p.path| + 1)
    ensures forall t <- Kids(p) :: |t.path| == |p.path| + 1 && t.path[..|p.path|] == p.path
  {
    var open := Opened(p);
    forall i, j | 0 <= i < j < |open| ensures open[i].path != open[j].path {
      assert open[i].path[|p.path|] != open[j].path[|p.path|];
    }
    UnskippedTidy(open, |p.path| + 1);
    forall t | t in Kids(p) ensures |t.path| == |p.path| + 1 && t.path[..|p.path|] == p.path {
      UnskippedHolds(open, t);
    }
  }

  lemma {:induction false} LevelTidy(level: seq<Place>, depth: nat)
    requires Tidy(level, depth)
    ensures Tidy(KidsOfAll(level), depth + 1)
  {
    if level != [] {
      LevelTidy(level[1..], depth);
      KidsTidy(level[0]);
      forall x, y | x in Kids(level[0]) && y in KidsOfAll(level[1..]) ensures x.path != y.path {
        KidsOfAllHold(level[1..], y);
        var p :| p in level[1..] && y in Kids(p);
        KidsTidy(p);
      }
    }
  }

  predicate NearestFirst(ps: seq<Place>) {
    forall i, j :: 0 <= i < j < |ps| ==> |ps[i].path| <= |ps[j].path|
  }

  lemma {:induction false} LevelsAreOrderly(level: seq<Place>, depth: nat)
    requires Tidy(level, depth)
    ensures PathsDiffer(Levels(level)) && NearestFirst(Levels(level))
    ensures forall t <- Levels(level) :: |t.path| > depth
    decreases Weight(level), |level|
  {
    var next := KidsOfAll(level);
    KidsAreLighter(level);
    LevelTidy(level, depth);
    if level != [] && next != [] {
      FoldersTidy(next, depth + 1);
      LevelsAreOrderly(Folders(next), depth + 1);
      var rest := Levels(Folders(next));
      var all := next + rest;
      forall i, j | 0 <= i < j < |all| ensures all[i].path != all[j].path && |all[i].path| <= |all[j].path| {
        if i < |next| { assert all[i] in next; }
        if j < |next| { assert all[j] in next; } else { assert all[j] in rest; }
      }
    }
  }

  // ------------------------------------------------------------------
  // The walk with a queue
  // ------------------------------------------------------------------

  datatype Walk = Walk(entries: seq<Entry>, pending: seq<Place>)

  // One pass over a folder's children, stopping where the limit is reached.
  function Scan(q: Query, limit: int, children: seq<Place>, w: Walk): Walk
    requires forall p <- children :: p.path != []
  {
    if children == [] then w
    else
      var c, rest := children[0], children[1..];
      if Skipped(c.path) then Scan(q, limit, rest, w)
      else if !Matches(q, c.path) then
        Scan(q, limit, rest, if c.node.Directory? then w.(pending := w.pending + [c]) else w)
      else
        var entries := w.entries + [EntryOf(c)];
        if |entries| >= limit then Walk(entries, w.pending)
        else Scan(q, limit, rest,
                  Walk(entries, if c.node.Directory? then w.pending + [c] else w.pending))
  }

  function Take(entries: seq<Entry>, limit: int): seq<Entry> {
    if limit <= 0 then [] else if limit < |entries| then entries[..limit] else entries
  }

  lemma OneMore(q: Query, c: Place, kids: seq<Place>, w: Walk)
    ensures w.pending + Folders([c] + kids)
            == (if c.node.Directory? then w.pending + [c] else w.pending) + Folders(kids)
    ensures w.entries + Listed(q, [c] + kids)
            == (if Matches(q, c.path) then w.entries + [EntryOf(c)] else w.entries) + Listed(q, kids)
  {
    assert ([c] + kids)[1..] == kids;
  }

  // Below the limit the scan queues every visible folder; in any case it lists
  // a prefix.
  lemma {:induction false} ScanMeans(q: Query, limit: int, children: seq<Place>, w: Walk)
    requires forall p <- children :: p.path != []
    requires |w.entries| < limit
    ensures var all := w.entries + Listed(q, Unskipped(children));
            var r := Scan(q, limit, children, w);
            r.entries == Take(all, limit) &&
            (|all| < limit ==> r.pending == w.pending + Folders(Unskipped(children)))
  {
    if children != [] {
      var c, rest := children[0], children[1..];
      if Skipped(c.path) {
        ScanMeans(q, limit, rest, w);
      } else {
        OneMore(q, c, Unskipped(rest), w);
        var queue := if c.node.Directory? then w.pending + [c] else w.pending;
        if !Matches(q, c.path) {
          ScanMeans(q, limit, rest, Walk(w.entries, queue));
        } else if |w.entries| + 1 < limit {
          ScanMeans(q, limit, rest, Walk(w.entries + [EntryOf(c)], queue));
        }
      }
    }
  }

  lemma {:induction false} ScanWeighs(q: Query, limit: int, children: seq<Place>, w: Walk)
    requires forall p <- children :: p.path != []
    ensures Weight(Scan(q, limit, children, w).pending) <= Weight(w.pending) + Weight(Unskipped(children))
  {
    if children != [] {
      var c, rest := children[0], children[1..];
      WeightAppend(w.pending, [c]);
      if Skipped(c.path) {
        ScanWeighs(q, limit, rest, w);
      } else {
        WeightAppend([c], Unskipped(rest));
        var queue := if c.node.Directory? then w.pending + [c] else w.pending;
        ScanWeighs(q, limit, rest, Walk(w.entries, queue));
        ScanWeighs(q, limit, rest, Walk(w.entries + [EntryOf(c)], queue));
      }
    }
  }

  // The whole walk: open the oldest pending folder while there is room.
  function Walked(q: Query, limit: int, w: Walk): Walk
    decreases Weight(w.pending)
  {
    if w.pending == [] || |w.entries| >= limit then w
    else
      var p := w.pending[0];
      var next := Scan(q, limit, Opened(p), Walk(w.entries, w.pending[1..]));
      ScanWeighs(q, limit, Opened(p), Walk(w.entries, w.pending[1..]));
      KidsWeigh(p);
      Walked(q, limit, next)
  }

  lemma ListedAppend(q: Query, a: seq<Place>, b: seq<Place>)
    ensures Listed(q, a + b) == Listed(q, a) + Listed(q, b)
  {
    if a == [] {
      assert a + b == b;
    } else {
      assert (a + b)[1..] == a[1..] + b;
      ListedAppend(q, a[1..], b);
    }
  }

  lemma FoldersAppend(a: seq<Place>, b: seq<Place>)
    ensures Folders(a + b) == Folders(a) + Folders(b)
  {
    if a == [] {
      assert a + b == b;
    } else {
      assert (a + b)[1..] == a[1..] + b;
      FoldersAppend(a[1..], b);
    }
  }

  // Opening the first folder of a level queues the folders among its kids
  // behind everything met so far.
  lemma QueueMoves(rest: seq<Place>, met: seq<Place>, folders: seq<Place>)
    requires rest != []
    ensures (rest + met)[0] == rest[0]
    ensures (rest + met)[1..] + folders == rest[1..] + (met + folders)
  {
    assert (rest + met)[1..] == rest[1..] + met;
  }

  lemma {:induction false} QueueGetsLighter(rest: seq<Place>, met: seq<Place>)
    requires rest != []
    ensures Weight(rest[1..] + (met + Folders(Kids(rest[0])))) < Weight(rest + met)
  {
    var folders := Folders(Kids(rest[0]));
    KidsWeigh(rest[0]);
    FoldersWeigh(Kids(rest[0]));
    WeightAppend(rest[1..], met + folders);
    WeightAppend(met, folders);
    WeightAppend(rest, met);
  }

  lemma {:induction false} SameFolders(kids: seq<Place>, later: seq<Place>, met: seq<Place>)
    ensures (met + Folders(kids)) + Folders(later) == met + Folders(kids + later)
  {
    FoldersAppend(kids, later);
  }

  lemma {:induction false} TakeMore(q: Query, entries: seq<Entry>, a: seq<Place>, b: seq<Place>, limit: int)
    ensures entries + Listed(q, a + b) == entries + Listed(q, a) + Listed(q, b)
    ensures 0 < limit <= |entries + Listed(q, a)| ==>
              Take(entries + Listed(q, a), limit) == Take(entries + Listed(q, a + b), limit)
  {
    ListedAppend(q, a, b);
    var all := entries + Listed(q, a);
    assert entries + Listed(q, a + b) == all + Listed(q, b);
    if 0 < limit <= |all| {
      assert all[..limit] == (all + Listed(q, b))[..limit];
    }
  }

  // What is still to be shown when, in mid-level, the queue holds the unopened
  // rest of this level and then the folders already met on the next one.
  function Ahead(rest: seq<Place>, met: seq<Place>): seq<Place> {
    KidsOfAll(rest) + Levels(met + Folders(KidsOfAll(rest)))
  }

  lemma {:induction false} AheadOfSome(kids: seq<Place>, later: seq<Place>, met: seq<Place>)
    ensures (kids + later) + Levels(met + Folders(kids + later))
            == kids + (later + Levels((met + Folders(kids)) + Folders(later)))
  {
    SameFolders(kids, later, met);
    Regroup(kids, later, Levels(met + Folders(kids + later)));
  }

  lemma {:induction false} AheadOfFirst(rest: seq<Place>, met: seq<Place>)
    requires rest != []
    ensures Ahead(rest, met) == Kids(rest[0]) + Ahead(rest[1..], met + Folders(Kids(rest[0])))
  {
    AheadOfSome(Kids(rest[0]), KidsOfAll(rest[1..]), met);
  }

  lemma {:induction false} AheadOfNextLevel(met: seq<Place>)
    ensures Ahead([], met) == Levels(met) == Ahead(met, [])
  {
    assert met + Folders(KidsOfAll([])) == met;
    assert [] + Folders(KidsOfAll(met)) == Folders(KidsOfAll(met));
  }

  lemma {:induction false} QueueIsLevelOrder(q: Query, limit: int, rest: seq<Place>, met: seq<Place>,
                                             entries: seq<Entry>)
    requires |entries| < limit
    ensures Walked(q, limit, Walk(entries, rest + met)).entries
            == Take(entries + Listed(q, Ahead(rest, met)), limit)
    decreases Weight(rest + met), if rest == [] then 1 else 0
  {
    if rest == [] {
      assert rest + met == met && met + [] == met;
      AheadOfNextLevel(met);
      if met != [] {
        QueueIsLevelOrder(q, limit, met, [], entries);
      }
    } else {
      var kids := Kids(rest[0]);
      var listed := entries + Listed(q, kids);
      QueueOpensFirst(q, limit, rest, met, entries);
      AheadOfFirst(rest, met);
      TakeMore(q, entries, kids, Ahead(rest[1..], met + Folders(kids)), limit);
      if |listed| < limit {
        QueueGetsLighter(rest, met);
        QueueIsLevelOrder(q, limit, rest[1..], met + Folders(kids), listed);
      }
    }
  }

  lemma {:induction false} QueueOpensFirst(q: Query, limit: int, rest: seq<Place>, met: seq<Place>,
                                           entries: seq<Entry>)
    requires |entries| < limit && rest != []
    ensures var kids := Kids(rest[0]); var listed := entries + Listed(q, kids);
            var r := Walked(q, limit, Walk(entries, rest + met));
            if |listed| < limit then r == Walked(q, limit, Walk(listed, rest[1..] + (met + Folders(kids))))
            else r.entries == Take(listed, limit)
  {
    QueueMoves(rest, met, Folders(Kids(rest[0])));
    ScanMeans(q, limit, Opened(rest[0]), Walk(entries, (rest + met)[1..]));
  }

  // ------------------------------------------------------------------
  // The listing
  // ------------------------------------------------------------------

  datatype Listing = Listing(entries: seq<Entry>, truncated: bool)

  function ListingOf(q: Query, root: Node, limit: int): Listing {
    var w := Walked(q, limit, Walk([], [Place([], root)]));
    Listing(w.entries, w.pending != [])
  }

  method ListProjectTree(q: Query, root: Node, limit: int) returns (r: Listing)
    ensures r == ListingOf(q, root, limit)
    ensures r.entries == Take(FullListing(q, root), limit)
    ensures r.truncated ==> |r.entries| >= limit
  {
    var entries: seq<Entry> := [];
    var pending := [Place([], root)];
    ghost var start := Walk(entries, pending);
    while pending != [] && |entries| < limit
      invariant Walked(q, limit, start) == Walked(q, limit, Walk(entries, pending))
      decreases Weight(pending)
    {
      var current := pending[0];
      pending := pending[1..];
      var children := Opened(current);
      ghost var before := Walk(entries, pending);
      ScanWeighs(q, limit, children, before);
      KidsWeigh(current);
      var i, full := 0, false;
      while i < |children| && !full
        invariant 0 <= i <= |children|
        invariant full || |entries| < limit
        invariant Scan(q, limit, children, before)
               == if full then Walk(entries, pending) else Scan(q, limit, children[i..], Walk(entries, pending))
        decreases |children| - i, !full
      {
        var child := children[i];
        assert children[i..][0] == child && children[i..][1..] == children[i + 1..];
        if Skipped(child.path) {
        } else if !Matches(q, child.path) {
          if child.node.Directory? { pending := pending + [child]; }
        } else {
          entries := entries + [EntryOf(child)];
          if child.node.Directory? && |entries| < limit { pending := pending + [child]; }
          full := |entries| >= limit;
        }
        i := i + 1;
      }
    }
    r := Listing(entries, pending != []);
    if 0 < limit {
      WalkedFromRoot(q, root, limit);
    }
  }

  lemma WalkedFromRoot(q: Query, root: Node, limit: int)
    ensures ListingOf(q, root, limit).entries == Take(FullListing(q, root), limit)
  {
    var top := [Place([], root)];
    if 0 < limit {
      AheadOfNextLevel(top);
      assert top + [] == top;
      QueueIsLevelOrder(q, limit, top, [], []);
      assert [] + FullListing(q, root) == FullListing(q, root);
    }
  }

  // An entry is in the full listing exactly when it stands for a matching
  // place behind readable folders with nothing ignored or secret on its path.
  lemma FullListingHolds(q: Query, root: Node, e: Entry)
    ensures e in FullListing(q, root) <==>
            exists t :: Below(Place([], root), t) && Visible(t.path) && Matches(q, t.path) && e == EntryOf(t)
  {
    var top := [Place([], root)];
    ListedHolds(q, Levels(top), e);
    forall t | e == EntryOf(t) ensures t in Levels(top) <==> Visible(t.path) && Below(top[0], t) {
      LevelsHold(top, t);
      if Below(top[0], t) { assert top[0] in top; }
    }
  }

  lemma ListedHolds(q: Query, ps: seq<Place>, e: Entry)
    ensures e in Listed(q, ps) <==> exists t :: t in ps && Matches(q, t.path) && e == EntryOf(t)
  {
    if ps != [] {
      ListedHolds(q, ps[1..], e);
      if e in Listed(q, ps) && e !in Listed(q, ps[1..]) {
        assert ps[0] in ps && Matches(q, ps[0].path);
      }
    }
  }

  predicate OnceNearestFirst(es: seq<Entry>) {
    forall i, j :: 0 <= i < j < |es| ==> es[i].path != es[j].path && |es[i].path| <= |es[j].path|
  }

  lemma ListedOrderly(q: Query, ps: seq<Place>)
    requires PathsDiffer(ps) && NearestFirst(ps)
    ensures OnceNearestFirst(Listed(q, ps))
  {
    if ps != [] {
      var rest := Listed(q, ps[1..]);
      ListedOrderly(q, ps[1..]);
      forall j | 0 <= j < |rest| ensures ps[0].path != rest[j].path && |ps[0].path| <= |rest[j].path| {
        ListedHolds(q, ps[1..], rest[j]);
        var t :| t in ps[1..] && Matches(q, t.path) && rest[j] == EntryOf(t);
        var k :| 0 <= k < |ps[1..]| && ps[1..][k] == t;
        assert ps[k + 1] == t;
      }
      var es := Listed(q, ps);
      if Matches(q, ps[0].path) {
        assert es == [EntryOf(ps[0])] + rest;
      } else {
        assert es == rest;
      }
    }
  }

  lemma FullListingIsOrderly(q: Query, root: Node)
    requires SiblingsDiffer(root)
    ensures OnceNearestFirst(FullListing(q, root))
  {
    var top := [Place([], root)];
    LevelsAreOrderly(top, 0);
    ListedOrderly(q, Levels(top));
  }

  lemma TakeIsOrderly(es: seq<Entry>, limit: int)
    requires OnceNearestFirst(es)
    ensures var r := Take(es, limit);
            OnceNearestFirst(r) && |r| <= (if limit < 0 then 0 else limit) && (|r| < limit ==> r == es)
  {}

  // Whatever the limit: no path twice, nearer paths before deeper ones, and a
  // listing that stops short of the limit has left nothing out.
  lemma ListingIsOrderly(q: Query, root: Node, limit: int)
    requires SiblingsDiffer(root)
    ensures var es := ListingOf(q, root, limit).entries;
            OnceNearestFirst(es) &&
            |es| <= (if limit < 0 then 0 else limit) &&
            (|es| < limit ==> es == FullListing(q, root))
  {
    FullListingIsOrderly(q, root);
    WalkedFromRoot(q, root, limit);
    TakeIsOrderly(FullListing(q, root), limit);
  }
}

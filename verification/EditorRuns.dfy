// The editor over whole runs: which backups an undo finds, and whose text it restores.
module EditorRuns {
  import opened Wrappers
  import opened Text
  import opened EditorNames
  import EditorText
  import opened Editor

  // `create` and `append` overwrite a file; other programs may save one too, without a
  // backup.
  datatype Action = Save(text: string) | Overwrite(text: string) | Replace(before: string, after: string) | Undo

  datatype Event = Event(path: string, action: Action, stamp: Stamp, now: int)

  function Step(f: Folder, e: Event): Folder {
    match e.action
    case Save(text) => Written(f, e.path, text, e.now)
    case Overwrite(text) =>
      Written(if e.path in f.files then BackedUp(f, e.path, e.stamp) else f, e.path, text, e.now)
    case Replace(before, after) => Replaced(f, e.path, before, after, e.stamp, e.now)
    case Undo => AfterUndo(f, e.path, e.stamp, e.now)
  }

  predicate NoneCollides(names: set<string>, p: string) { forall q <- names :: !Collides(p, q) }

  // No backup of another file is a candidate unless the names collide.
  lemma ForeignBackup(f: Folder, p: string, q: string, stamp: Stamp)
    requires q in f.files && p != q && !Collides(p, q)
    ensures !Candidate(p, NewBackup(f, q, stamp))
  {
    ForeignName(p, q, stamp, FreeTry(Names(f.backups), stamp, q, 0));
  }

  // Every file was written after the text of its backups, and nothing is dated
  // later than the clock.
  predicate DatedUpTo(f: Folder, clock: int) {
    (forall p <- f.files :: f.files[p].time <= clock) &&
    (forall b <- f.backups :: b.stored.time <= clock)
  }

  lemma StepStaysSettled(names: set<string>, f: Folder, clock: int, e: Event, p: string)
    requires NoneCollides(names, p) && e.path in names && e.now > clock
    requires DatedUpTo(f, clock)
    requires p in f.files ==> Settled(f, p)
    requires p in Step(f, e).files
    ensures Settled(Step(f, e), p)
  {
    var g := Step(f, e);
    forall b | b in g.backups && Candidate(p, b) ensures b.stored.time < g.files[p].time {
      StepBackups(f, e, b);
      if p != e.path {
        if e.path in f.files {
          ForeignBackup(f, p, e.path, e.stamp);
        }
      }
    }
  }

  // Where a live backup comes from: it was there, or the event made it.
  lemma StepBackups(f: Folder, e: Event, b: Backup)
    requires b in Step(f, e).backups && !EndsWith(b.name, UNDONE)
    ensures b in f.backups ||
            (e.path in f.files && b == NewBackup(f, e.path, e.stamp) && Step(f, e) != f)
  {
    if e.action.Undo? && Undoes(f, e.path) == Done {
      var used := Latest(e.path, f.backups).value;
      var all := if e.path in f.files then BackedUp(f, e.path, e.stamp).backups else f.backups;
      var i: nat :| i < |all| && Rename(all, used)[i] == b;
      RenameAt(all, used, i);
      var name := used.name + UNDONE;
      assert name[|name| - |UNDONE|..] == UNDONE;
    }
  }

  function Run(f: Folder, events: seq<Event>): Folder {
    if events == [] then f else Step(Run(f, events[..|events| - 1]), events[|events| - 1])
  }

  // The events touch the named files only, each later than the one before.
  predicate InOrder(names: set<string>, clock: int, events: seq<Event>) {
    (forall e <- events :: e.path in names && e.now > clock) &&
    forall i, j :: 0 <= i < j < |events| ==> events[i].now < events[j].now
  }

  function Clock(clock: int, events: seq<Event>): int {
    if events == [] then clock else events[|events| - 1].now
  }

  lemma RenameKeepsTimes(bs: seq<Backup>, used: Backup, clock: int)
    requires forall b <- bs :: b.stored.time <= clock
    ensures forall b <- Rename(bs, used) :: b.stored.time <= clock
  {
    var renamed := Rename(bs, used);
    forall b | b in renamed ensures b.stored.time <= clock {
      var i: nat :| i < |bs| && renamed[i] == b;
      RenameAt(bs, used, i);
      assert bs[i] in bs;
    }
  }

  lemma WrittenStaysOrderly(f: Folder, path: string, text: string, clock: int, now: int)
    requires DatedUpTo(f, clock) && now > clock
    ensures DatedUpTo(Written(f, path, text, now), now)
  {}

  lemma StepStaysOrderly(f: Folder, clock: int, e: Event)
    requires DatedUpTo(f, clock) && e.now > clock
    ensures DatedUpTo(Step(f, e), e.now)
  {
    var kept := f;
    if e.path in f.files {
      kept := BackedUp(f, e.path, e.stamp);
    }
    match e.action
    case Save(text) => WrittenStaysOrderly(f, e.path, text, clock, e.now);
    case Overwrite(text) => WrittenStaysOrderly(kept, e.path, text, clock, e.now);
    case Replace(before, after) =>
      if Step(f, e) != f {
        WrittenStaysOrderly(kept, e.path, EditorText.ReplaceFirst(f.files[e.path].text, before, after), clock, e.now);
      }
    case Undo =>
      if Undoes(f, e.path) == Done {
        var used := Latest(e.path, f.backups).value;
        WrittenStaysOrderly(kept, e.path, used.stored.text, clock, e.now);
        RenameKeepsTimes(kept.backups, used, e.now);
      }
  }

  // From any folder without backups, a file whose name collides with no other is settled
  // in every run: the undo laws hold for it there.
  lemma {:induction false} RunIsSettled(names: set<string>, f: Folder, clock: int, events: seq<Event>, p: string)
    requires NoneCollides(names, p) && f.files.Keys <= names && f.backups == [] && DatedUpTo(f, clock)
    requires InOrder(names, clock, events)
    ensures var g := Run(f, events);
            DatedUpTo(g, Clock(clock, events)) && g.files.Keys <= names && (p in g.files ==> Settled(g, p))
  {
    if events != [] {
      var init, e := events[..|events| - 1], events[|events| - 1];
      RunIsSettled(names, f, clock, init, p);
      assert init != [] ==> events[|events| - 2].now < e.now;
      StepStaysOrderly(Run(f, init), Clock(clock, init), e);
      if p in Run(f, events).files {
        StepStaysSettled(names, Run(f, init), Clock(clock, init), e, p);
      }
    }
  }

  // Without that condition an undo can bring in another file's text: here `p` is
  // undone after a later replacement in `q`, whose name ends with `_p`.
  lemma UndoTakesTheSibling(f: Folder, p: string, q: string, before: string, after: string, stamp: string, now: int,
                            stamp': string, now': int)
    requires EndsWith(q, "_" + p) && !EndsWith(q, UNDONE) && q in f.files
    requires forall b <- f.backups :: Candidate(p, b) ==> b.stored.time < f.files[q].time
    requires Replaces(f, q, before, after) == Done
    ensures var g := Replaced(f, q, before, after, stamp, now);
            Undoes(g, p) == Done && p in AfterUndo(g, p, stamp', now').files &&
            AfterUndo(g, p, stamp', now').files[p].text == f.files[q].text
  {
    var b := NewBackup(f, q, stamp);
    var n := FreeTry(Names(f.backups), stamp, q, 0);
    SiblingName(p, q, if n == 0 then stamp else stamp + "_" + Decimal(n));
    NewestIsLatest(p, f.backups + [b], b);
  }

  // ------------------------------------------------------------------
  // Whose text an undo restores
  // ------------------------------------------------------------------

  predicate Touch(names: set<string>, events: seq<Event>) { forall e <- events :: e.path in names }

  // `p` held the text (and was written at the time) at some point of the run.
  predicate HeldAt(f: Folder, events: seq<Event>, k: nat, p: string, stored: Stored)
    requires k <= |events|
  {
    var g := Run(f, events[..k]);
    p in g.files && g.files[p] == stored
  }

  ghost predicate Held(f: Folder, events: seq<Event>, p: string, stored: Stored) {
    exists k: nat :: k <= |events| && HeldAt(f, events, k, p, stored)
  }

  lemma HeldBefore(f: Folder, events: seq<Event>, p: string, stored: Stored)
    requires events != [] && Held(f, events[..|events| - 1], p, stored)
    ensures Held(f, events, p, stored)
  {
    var init := events[..|events| - 1];
    var k: nat :| k <= |init| && HeldAt(f, init, k, p, stored);
    assert init[..k] == events[..k];
    assert HeldAt(f, events, k, p, stored);
  }

  // Every backup that can be taken for a file whose name collides with no other holds
  // what that very file held earlier in the run.
  lemma {:induction false} CandidatesAreOwn(names: set<string>, f: Folder, events: seq<Event>, p: string, b: Backup)
    requires NoneCollides(names, p) && Touch(names, events) && f.backups == []
    requires b in Run(f, events).backups && Candidate(p, b)
    ensures Held(f, events, p, b.stored)
  {
    if events != [] {
      var init, e := events[..|events| - 1], events[|events| - 1];
      var g := Run(f, init);
      assert forall x <- init :: x in events;
      StepBackups(g, e, b);
      if b in g.backups {
        CandidatesAreOwn(names, f, init, p, b);
        HeldBefore(f, events, p, b.stored);
      } else {
        assert e in events;
        if e.path != p {
          ForeignBackup(g, p, e.path, e.stamp);
        }
        assert HeldAt(f, events, |init|, p, b.stored);
      }
    }
  }

  // If an undo is possible after the run, it restores a text the file has held.
  ghost predicate RestoresOwn(f: Folder, events: seq<Event>, p: string) {
    var g := Run(f, events);
    Undoes(g, p) == Done ==>
      exists stored :: Held(f, events, p, stored) && stored.text == Latest(p, g.backups).value.stored.text
  }

  ghost predicate AlwaysRestoresOwn(names: set<string>, p: string) {
    forall f: Folder, events: seq<Event> :: f.backups == [] && Touch(names, events) ==> RestoresOwn(f, events, p)
  }

  // Runs in which `q` is edited n times at one moment, and `p` never.
  const MOMENT: Stamp := "20240101-000000-000000"

  function Sibling(p: string, q: string): Folder { Folder(map[p := Stored("y", 0), q := Stored("x", 0)], []) }

  function Flip(n: nat): string { if n % 2 == 0 then "x" else "z" }

  function Edits(q: string, n: nat): seq<Event> {
    if n == 0 then [] else Edits(q, n - 1) + [Event(q, Replace(Flip(n - 1), Flip(n)), MOMENT, n)]
  }

  // What n such edits leave: the names tried so far are taken, one backup each.
  predicate Edited(g: Folder, p: string, q: string, n: nat) {
    q in g.files && g.files[q].text == Flip(n) && p in g.files && g.files[p] == Stored("y", 0) &&
    |g.backups| == n && forall i | 0 <= i < n :: Tried(MOMENT, q, i) == g.backups[i].name &&
                                                 g.backups[i].stored.text == Flip(i)
  }

  lemma FlipIsReplaced(n: nat)
    ensures Flip(n) != [] && Flip(n) != Flip(n + 1) && Readable(Flip(n))
    ensures EditorText.Positions(Flip(n), Flip(n), 0) == [0]
    ensures EditorText.ReplaceFirst(Flip(n), Flip(n), Flip(n + 1)) == Flip(n + 1)
  {
    assert "x"[0] != "z"[0];
  }

  lemma EditTakesNextTry(g: Folder, p: string, q: string, n: nat)
    requires Edited(g, p, q, n)
    ensures NewBackup(g, q, MOMENT) == Backup(Tried(MOMENT, q, n), g.files[q])
  {
    var taken := Names(g.backups);
    var k := FreeTry(taken, MOMENT, q, 0);
    FreeTryIsFirst(taken, MOMENT, q, 0, n);
    assert forall i | 0 <= i < n :: g.backups[i].name in taken;
    if k > n {
      var i: nat :| i < n && g.backups[i].name == Tried(MOMENT, q, n);
      TriesDiffer(MOMENT, q, i, n);
    }
  }

  lemma EditStep(g: Folder, h: Folder, p: string, q: string, n: nat)
    requires p != q && Edited(g, p, q, n) && h == Replaced(g, q, Flip(n), Flip(n + 1), MOMENT, n + 1)
    ensures Edited(h, p, q, n + 1)
  {
    FlipIsReplaced(n);
    EditTakesNextTry(g, p, q, n);
  }

  lemma LastEdit(f: Folder, q: string, n: nat)
    ensures Run(f, Edits(q, n + 1)) == Replaced(Run(f, Edits(q, n)), q, Flip(n), Flip(n + 1), MOMENT, n + 1)
  {
    var edits := Edits(q, n + 1);
    assert edits[..|edits| - 1] == Edits(q, n);
  }

  lemma {:induction false} EditsRun(p: string, q: string, n: nat)
    requires p != q
    ensures Edited(Run(Sibling(p, q), Edits(q, n)), p, q, n)
  {
    if n > 0 {
      var f := Sibling(p, q);
      EditsRun(p, q, n - 1);
      LastEdit(f, q, n - 1);
      EditStep(Run(f, Edits(q, n - 1)), Run(f, Edits(q, n)), p, q, n - 1);
    }
  }

  lemma {:induction false} EditsBefore(q: string, n: nat, k: nat)
    requires k <= n
    ensures |Edits(q, n)| == n && Edits(q, n)[..k] == Edits(q, k)
  {
    if n > 0 {
      if k < n {
        EditsBefore(q, n - 1, k);
        assert Edits(q, n)[..k] == Edits(q, n - 1)[..k];
      } else {
        EditsBefore(q, n - 1, n - 1);
        assert Edits(q, n)[..n] == Edits(q, n);
      }
    }
  }

  lemma SiblingIsRestored(p: string, q: string)
    requires Collides(p, q)
    ensures !RestoresOwn(Sibling(p, q), Edits(q, TryFor(p, q) + 1), p)
  {
    var f, n := Sibling(p, q), TryFor(p, q) + 1;
    var events := Edits(q, n);
    var g := Run(f, events);
    EditsRun(p, q, n);
    EditsBefore(q, n, n);
    CollidingName(p, q, MOMENT);
    LatestIsCandidate(p, g.backups);
    assert Candidate(p, g.backups[n - 1]);
    var b := Latest(p, g.backups).value;
    assert b.stored.text in {"x", "z"} && '\0' !in "x" && '\0' !in "z";
    forall stored | Held(f, events, p, stored) ensures stored == Stored("y", 0) {
      var k: nat :| k <= n && HeldAt(f, events, k, p, stored);
      EditsBefore(q, n, k);
      EditsRun(p, q, k);
    }
    assert "x"[0] != "y"[0] && "z"[0] != "y"[0];
  }

  lemma {:induction false} EditsTouch(names: set<string>, q: string, n: nat)
    requires q in names
    ensures Touch(names, Edits(q, n))
  {
    if n > 0 {
      EditsTouch(names, q, n - 1);
    }
  }

  // In every run every undo of a file restores one of its own texts, exactly when no other
  // name in use collides with its name.
  lemma RestoresOwnIff(names: set<string>, p: string)
    ensures AlwaysRestoresOwn(names, p) <==> NoneCollides(names, p)
  {
    if NoneCollides(names, p) {
      forall f: Folder, events: seq<Event> | f.backups == [] && Touch(names, events) ensures RestoresOwn(f, events, p) {
        var g := Run(f, events);
        LatestIsCandidate(p, g.backups);
        if Undoes(g, p) == Done {
          CandidatesAreOwn(names, f, events, p, Latest(p, g.backups).value);
        }
      }
    } else {
      var q :| q in names && Collides(p, q);
      SiblingIsRestored(p, q);
      EditsTouch(names, q, TryFor(p, q) + 1);
    }
  }
}

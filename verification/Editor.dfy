// The editor's files: replacing text with a backup, and undoing.
module Editor {
  import opened Wrappers
  import opened Text
  import opened EditorNames
  import EditorText

  // A file's text and the time it was last written.
  datatype Stored = Stored(text: string, time: int)

  // A backup keeps the text and the time of the file it was copied from.
  datatype Backup = Backup(name: string, stored: Stored)

  // One directory: its files, and its backup folder in listing order.
  datatype Folder = Folder(files: map<string, Stored>, backups: seq<Backup>)

  datatype Error = FileNotFound | EmptyOld | OldIsNew | NotFound | MatchesSeveral | BinaryFile | NoBackups

  datatype Reply = Done | Refused(error: Error)

  predicate Readable(text: string) { '\0' !in text }

  // A backup of `path` that has not been used by an undo, going by its name.
  predicate Candidate(path: string, b: Backup) { Offered(path, b.name) }

  // Order of names, character by character.
  predicate Before(a: string, b: string) {
    if b == [] then false
    else if a == [] then true
    else if a[0] != b[0] then a[0] < b[0]
    else Before(a[1..], b[1..])
  }

  predicate Newer(a: Backup, b: Backup) {
    a.stored.time > b.stored.time || (a.stored.time == b.stored.time && Before(b.name, a.name))
  }

  // max() over the candidates: a later one takes over only if it is newer.
  function Latest(path: string, bs: seq<Backup>): Option<Backup> {
    if bs == [] then None
    else
      var best := Latest(path, bs[..|bs| - 1]);
      var b := bs[|bs| - 1];
      if Candidate(path, b) && (best.None? || Newer(b, best.value)) then Some(b) else best
  }

  function Rename(bs: seq<Backup>, b: Backup): (r: seq<Backup>)
    ensures |r| == |bs|
  {
    if bs == [] then []
    else [if bs[0] == b then b.(name := b.name + UNDONE) else bs[0]] + Rename(bs[1..], b)
  }

  lemma {:induction false} RenameAt(bs: seq<Backup>, b: Backup, i: nat)
    requires i < |bs|
    ensures Rename(bs, b)[i] == if bs[i] == b then b.(name := b.name + UNDONE) else bs[i]
  {
    if i > 0 {
      RenameAt(bs[1..], b, i - 1);
    }
  }

  function Names(bs: seq<Backup>): set<string> { set b <- bs :: b.name }

  // The copy made before a file is overwritten, under the first free name for the stamp.
  function NewBackup(f: Folder, path: string, stamp: string): Backup
    requires path in f.files
  {
    Backup(Drawn(Names(f.backups), stamp, path), f.files[path])
  }

  function BackedUp(f: Folder, path: string, stamp: string): Folder
    requires path in f.files
  {
    f.(backups := f.backups + [NewBackup(f, path, stamp)])
  }

  function Written(f: Folder, path: string, text: string, now: int): Folder {
    f.(files := f.files[path := Stored(text, now)])
  }

  function Replaces(f: Folder, path: string, before: string, after: string): Reply {
    if path !in f.files then Refused(FileNotFound)
    else if before == [] then Refused(EmptyOld)
    else if before == after then Refused(OldIsNew)
    else
      var text := f.files[path].text;
      var matches := EditorText.Positions(text, before, 0);
      if !Readable(text) then Refused(BinaryFile)
      else if matches == [] then Refused(NotFound)
      else if |matches| > 1 then Refused(MatchesSeveral)
      else Done
  }

  function Replaced(f: Folder, path: string, before: string, after: string, stamp: string, now: int): Folder {
    if Replaces(f, path, before, after) != Done then f
    else Written(BackedUp(f, path, stamp), path, EditorText.ReplaceFirst(f.files[path].text, before, after), now)
  }

  function Undoes(f: Folder, path: string): Reply {
    match Latest(path, f.backups)
    case None => Refused(NoBackups)
    case Some(b) => if Readable(b.stored.text) then Done else Refused(BinaryFile)
  }

  function AfterUndo(f: Folder, path: string, stamp: string, now: int): Folder {
    if Undoes(f, path) != Done then f
    else
      var b := Latest(path, f.backups).value;
      var archived := if path in f.files then BackedUp(f, path, stamp) else f;
      var restored := Written(archived, path, b.stored.text, now);
      restored.(backups := Rename(restored.backups, b))
  }

  // ------------------------------------------------------------------
  // The latest backup
  // ------------------------------------------------------------------

  lemma {:induction false} BeforeIsOneWay(a: string, b: string)
    ensures !(Before(a, b) && Before(b, a))
  {
    if a != [] && b != [] {
      BeforeIsOneWay(a[1..], b[1..]);
    }
  }

  lemma {:induction false} LatestIsCandidate(path: string, bs: seq<Backup>)
    ensures var r := Latest(path, bs); r.Some? ==> r.value in bs && Candidate(path, r.value)
    ensures Latest(path, bs).None? <==> forall b <- bs :: !Candidate(path, b)
  {
    if bs != [] {
      LatestIsCandidate(path, bs[..|bs| - 1]);
      assert bs == bs[..|bs| - 1] + [bs[|bs| - 1]];
    }
  }

  // A candidate newer than all the others is the one that is taken.
  lemma {:induction false} NewestIsLatest(path: string, bs: seq<Backup>, b: Backup)
    requires b in bs && Candidate(path, b)
    requires forall c <- bs :: Candidate(path, c) && c != b ==> Newer(b, c)
    ensures Latest(path, bs) == Some(b)
  {
    var init, last := bs[..|bs| - 1], bs[|bs| - 1];
    assert bs == init + [last];
    LatestIsCandidate(path, init);
    var best := Latest(path, init);
    if b in init {
      NewestIsLatest(path, init, b);
      BeforeIsOneWay(b.name, last.name);
      BeforeIsOneWay(b.name, b.name);
    }
  }

  // ------------------------------------------------------------------
  // Undoing a replacement, and undoing the undo
  // ------------------------------------------------------------------

  // Every backup that can be taken for `path` is older than the file.
  predicate Settled(f: Folder, path: string) {
    path in f.files && forall b <- f.backups :: Candidate(path, b) ==> b.stored.time < f.files[path].time
  }

  // A backup can be taken by an undo of its own file unless that file's name ends
  // like a used backup's.
  lemma OwnBackup(f: Folder, path: string, stamp: string)
    requires path in f.files
    ensures Candidate(path, NewBackup(f, path, stamp)) <==> !EndsWith(path, UNDONE)
  {
    var n := FreeTry(Names(f.backups), stamp, path, 0);
    OwnName(if n == 0 then stamp else stamp + "_" + Decimal(n), path);
  }

  // Such a file can be edited but never restored.
  lemma NeverUndone(f: Folder, path: string)
    requires EndsWith(path, UNDONE)
    ensures Undoes(f, path) == Refused(NoBackups)
  {
    LatestIsCandidate(path, f.backups);
    forall b | b in f.backups ensures !Candidate(path, b) {
      if EndsWith(b.name, "_" + path) {
        var k := |b.name| - |path|;
        assert b.name[k - 1..] == "_" + path;
        assert b.name[k..] == path;
        assert b.name[|b.name| - |UNDONE|..] == path[|path| - |UNDONE|..];
      }
    }
  }

  // Overwriting a settled file leaves its old text as the newest backup.
  lemma BackupIsLatest(f: Folder, path: string, stamp: string)
    requires Settled(f, path) && !EndsWith(path, UNDONE)
    ensures Latest(path, BackedUp(f, path, stamp).backups) == Some(NewBackup(f, path, stamp))
  {
    var b := NewBackup(f, path, stamp);
    OwnBackup(f, path, stamp);
    NewestIsLatest(path, f.backups + [b], b);
  }

  // Replace, then undo: the text is back, and no other file has changed.
  lemma ReplaceThenUndo(f: Folder, path: string, before: string, after: string, stamp: string, now: int,
                        stamp': string, now': int)
    requires Settled(f, path) && !EndsWith(path, UNDONE) && Replaces(f, path, before, after) == Done
    ensures var g := Replaced(f, path, before, after, stamp, now); var h := AfterUndo(g, path, stamp', now');
            Undoes(g, path) == Done && h.files == f.files[path := Stored(f.files[path].text, now')]
  {
    BackupIsLatest(f, path, stamp);
  }

  // The candidates an undo leaves: the other ones, and the archived text.
  lemma CandidatesAfterUndo(f: Folder, path: string, stamp: string, now: int, c: Backup)
    requires path in f.files && Undoes(f, path) == Done
    requires c in AfterUndo(f, path, stamp, now).backups && Candidate(path, c)
    ensures c == NewBackup(f, path, stamp) ||
            (c in f.backups && c != Latest(path, f.backups).value)
  {
    var b := Latest(path, f.backups).value;
    var all := BackedUp(f, path, stamp).backups;
    assert AfterUndo(f, path, stamp, now).backups == Rename(all, b);
    var i: nat :| i < |all| && Rename(all, b)[i] == c;
    RenameAt(all, b, i);
    var name := b.name + UNDONE;
    assert name[|name| - |UNDONE|..] == UNDONE;
  }

  lemma ArchivedStays(f: Folder, path: string, stamp: string, now: int)
    requires Settled(f, path) && Undoes(f, path) == Done
    ensures NewBackup(f, path, stamp) in AfterUndo(f, path, stamp, now).backups
  {
    var b := Latest(path, f.backups).value;
    var all := BackedUp(f, path, stamp).backups;
    var archived := NewBackup(f, path, stamp);
    LatestIsCandidate(path, f.backups);
    assert all[|f.backups|] == archived && archived != b;
    RenameAt(all, b, |f.backups|);
  }

  // After an undo the text it replaced is the next to be restored.
  lemma UndoArchives(f: Folder, path: string, stamp: string, now: int)
    requires Settled(f, path) && !EndsWith(path, UNDONE) && Undoes(f, path) == Done
    ensures Latest(path, AfterUndo(f, path, stamp, now).backups) == Some(NewBackup(f, path, stamp))
  {
    var archived := NewBackup(f, path, stamp);
    var g := AfterUndo(f, path, stamp, now);
    OwnBackup(f, path, stamp);
    ArchivedStays(f, path, stamp, now);
    forall c | c in g.backups && Candidate(path, c) && c != archived ensures Newer(archived, c) {
      CandidatesAfterUndo(f, path, stamp, now, c);
    }
    NewestIsLatest(path, g.backups, archived);
  }

  // Two undos leave the text as it was exactly when it holds no NUL: the editor
  // archives any text but reads back only text.
  lemma UndoTwiceIff(f: Folder, path: string, stamp: string, now: int, stamp': string, now': int)
    requires Settled(f, path) && !EndsWith(path, UNDONE) && Undoes(f, path) == Done
    ensures var h := AfterUndo(AfterUndo(f, path, stamp, now), path, stamp', now');
            path in h.files &&
            (h.files[path].text == f.files[path].text <==> Readable(f.files[path].text))
  {
    UndoArchives(f, path, stamp, now);
  }

  // A file that holds a NUL over a readable backup.
  function NulFile(path: string, stamp: string): Folder {
    Folder(map[path := Stored("\0", 2)], [Backup(BackupName(stamp, path), Stored("x", 1))])
  }

  // It can be undone, and the undo is then refused: the NUL does not come back.
  lemma NulIsLost(path: string, stamp: string, now: int, stamp': string, now': int)
    requires !EndsWith(path, UNDONE)
    ensures var f := NulFile(path, stamp);
            Settled(f, path) && Undoes(f, path) == Done && !Readable(f.files[path].text)
    ensures var h := AfterUndo(AfterUndo(NulFile(path, stamp), path, stamp, now), path, stamp', now');
            path in h.files && h.files[path].text != "\0"
  {
    var f := NulFile(path, stamp);
    var b := f.backups[0];
    OwnName(stamp, path);
    NewestIsLatest(path, f.backups, b);
    assert '\0' in "\0" by {
      assert "\0"[0] == '\0';
    }
    UndoTwiceIff(f, path, stamp, now, stamp', now');
  }

  // An undo leaves a settled file settled.
  lemma UndoStaysSettled(f: Folder, path: string, stamp: string, now: int)
    requires Settled(f, path) && Undoes(f, path) == Done && now > f.files[path].time
    ensures Settled(AfterUndo(f, path, stamp, now), path)
  {
    var g := AfterUndo(f, path, stamp, now);
    forall c | c in g.backups && Candidate(path, c) ensures c.stored.time < now {
      CandidatesAfterUndo(f, path, stamp, now, c);
    }
  }

  // What one undo swaps: the present text and the one it would restore.
  lemma UndoSwaps(f: Folder, path: string, stamp: string, now: int)
    requires Settled(f, path) && !EndsWith(path, UNDONE) && Readable(f.files[path].text)
    requires Undoes(f, path) == Done && now > f.files[path].time
    ensures var g := AfterUndo(f, path, stamp, now);
            Settled(g, path) && Undoes(g, path) == Done && Readable(g.files[path].text) &&
            g.files[path] == Stored(Latest(path, f.backups).value.stored.text, now) &&
            Latest(path, g.backups).value.stored.text == f.files[path].text
  {
    UndoArchives(f, path, stamp, now);
    UndoStaysSettled(f, path, stamp, now);
  }

  // n undos in a row.
  function Undos(f: Folder, path: string, n: nat, stamp: nat -> string, now: nat -> int): Folder {
    if n == 0 then f else AfterUndo(Undos(f, path, n - 1, stamp, now), path, stamp(n - 1), now(n - 1))
  }

  // The file holds one of two readable texts, and an undo would restore the other.
  predicate Holds(g: Folder, path: string, present: string, other: string) {
    Settled(g, path) && Undoes(g, path) == Done && Readable(present) && g.files[path].text == present &&
    Latest(path, g.backups).value.stored.text == other
  }

  lemma UndoExchanges(g: Folder, path: string, present: string, other: string, stamp: string, now: int)
    requires Holds(g, path, present, other) && !EndsWith(path, UNDONE) && now > g.files[path].time
    ensures var h := AfterUndo(g, path, stamp, now); Holds(h, path, other, present) && h.files[path].time == now
  {
    UndoSwaps(g, path, stamp, now);
  }

  ghost predicate Rising(now: nat -> int) { forall i: nat, j: nat :: i < j ==> now(i) < now(j) }

  // Any number of undos goes back and forth between the present text and the one before
  // it: older backups are never reached.
  lemma {:induction false} UndosAlternate(f: Folder, path: string, present: string, earlier: string, n: nat,
                                          stamp: nat -> string, now: nat -> int)
    requires Holds(f, path, present, earlier) && !EndsWith(path, UNDONE)
    requires now(0) > f.files[path].time && Rising(now)
    ensures n % 2 == 0 ==> Holds(Undos(f, path, n, stamp, now), path, present, earlier)
    ensures n % 2 == 1 ==> Holds(Undos(f, path, n, stamp, now), path, earlier, present)
  {
    UndosSwing(f, path, Texts(present, earlier), n, stamp, now);
    SwungParity(Texts(present, earlier), n);
  }

  // The present text and the other one, and how n undos exchange them.
  datatype Texts = Texts(present: string, other: string)

  function Swung(texts: Texts, n: nat): Texts {
    if n == 0 then texts
    else
      var before := Swung(texts, n - 1);
      Texts(before.other, before.present)
  }

  lemma {:induction false} SwungParity(texts: Texts, n: nat)
    ensures Swung(texts, n) == if n % 2 == 0 then texts else Texts(texts.other, texts.present)
  {
    if n > 0 {
      SwungParity(texts, n - 1);
    }
  }

  predicate HoldsUntil(g: Folder, path: string, texts: Texts, end: int) {
    Holds(g, path, texts.present, texts.other) && g.files[path].time < end
  }

  lemma UndoSwings(g: Folder, h: Folder, path: string, texts: Texts, stamp: string, now: int, end: int)
    requires HoldsUntil(g, path, texts, now) && !EndsWith(path, UNDONE) && now < end
    requires h == AfterUndo(g, path, stamp, now)
    ensures HoldsUntil(h, path, Texts(texts.other, texts.present), end)
  {
    UndoExchanges(g, path, texts.present, texts.other, stamp, now);
  }

  lemma {:induction false} UndosSwing(f: Folder, path: string, texts: Texts, n: nat, stamp: nat -> string,
                                      now: nat -> int)
    requires HoldsUntil(f, path, texts, now(0)) && !EndsWith(path, UNDONE) && Rising(now)
    ensures HoldsUntil(Undos(f, path, n, stamp, now), path, Swung(texts, n), now(n))
  {
    if n > 0 {
      var before := Undos(f, path, n - 1, stamp, now);
      UndosSwing(f, path, texts, n - 1, stamp, now);
      assert now(n - 1) < now(n);
      UndoSwings(before, Undos(f, path, n, stamp, now), path, Swung(texts, n - 1), stamp(n - 1), now(n - 1), now(n));
    }
  }

  // ------------------------------------------------------------------
  // The commands
  // ------------------------------------------------------------------

  class Workspace {
    var files: map<string, Stored>
    var backups: seq<Backup>

    ghost function View(): Folder
      reads this
    {
      Folder(files, backups)
    }

    constructor (files: map<string, Stored>, backups: seq<Backup>)
      ensures View() == Folder(files, backups)
    {
      this.files, this.backups := files, backups;
    }

    method BackupFile(path: string, stamp: string)
      requires path in files
      modifies this`backups
      ensures View() == BackedUp(old(View()), path, stamp)
    {
      ghost var taken := Names(backups);
      ghost var tried := {};
      assert taken - tried == taken;
      var candidate, counter := BackupName(stamp, path), 1;
      while candidate in Names(backups)
        invariant backups == old(backups)
        invariant counter > 0 && candidate == Tried(stamp, path, counter - 1)
        invariant tried == TriedNames(stamp, path, counter - 1)
        invariant FreeTry(taken - tried, stamp, path, counter - 1) == FreeTry(taken, stamp, path, 0)
        decreases taken - tried
      {
        NextTryIsNew(stamp, path, counter - 1, counter - 1);
        assert taken - (tried + {candidate}) == taken - tried - {candidate};
        tried := tried + {candidate};
        candidate := BackupName(stamp + "_" + Decimal(counter), path);
        counter := counter + 1;
      }
      NextTryIsNew(stamp, path, counter - 1, counter - 1);
      backups := backups + [Backup(candidate, files[path])];
    }

    method AtomicWrite(path: string, text: string, now: int)
      modifies this`files
      ensures View() == Written(old(View()), path, text, now)
    {
      files := files[path := Stored(text, now)];
    }

    method Replace(path: string, before: string, after: string, stamp: string, now: int)
        returns (reply: Reply, line: nat)
      modifies this
      ensures reply == Replaces(old(View()), path, before, after)
      ensures View() == Replaced(old(View()), path, before, after, stamp, now)
      ensures reply == Done ==>
                line == EditorText.LineOf(old(files[path]).text, EditorText.Positions(old(files[path]).text, before, 0)[0])
    {
      line := 0;
      if path !in files {
        return Refused(FileNotFound), line;
      }
      if before == [] {
        return Refused(EmptyOld), line;
      }
      if before == after {
        return Refused(OldIsNew), line;
      }
      var text := files[path].text;
      if !Readable(text) {
        return Refused(BinaryFile), line;
      }
      var matches := EditorText.FindMatchLines(text, before);
      if matches == [] {
        return Refused(NotFound), line;
      }
      if |matches| > 1 {
        return Refused(MatchesSeveral), line;
      }
      EditorText.LinesAt(text, EditorText.Positions(text, before, 0), 0);
      line := matches[0];
      BackupFile(path, stamp);
      AtomicWrite(path, EditorText.ReplaceFirst(text, before, after), now);
      return Done, line;
    }

    method Undo(path: string, stamp: string, now: int) returns (reply: Reply)
      modifies this
      ensures reply == Undoes(old(View()), path)
      ensures View() == AfterUndo(old(View()), path, stamp, now)
    {
      var backup := Latest(path, backups);
      if backup.None? {
        return Refused(NoBackups);
      }
      var restored := backup.value.stored.text;
      if !Readable(restored) {
        return Refused(BinaryFile);
      }
      if path in files {
        BackupFile(path, stamp);
      }
      AtomicWrite(path, restored, now);
      backups := Rename(backups, backup.value);
      return Done;
    }
  }
}

// The names of backups: how one is drawn for a file, and for which files its ending
// makes it a candidate (scripts/edit.py).
module EditorNames {
  import opened Text

  const UNDONE: string := ".undone"

  predicate EndsWith(s: string, end: string) { |end| <= |s| && s[|s| - |end|..] == end }

  // The name of a backup of `path` that no undo has used.
  predicate Offered(path: string, name: string) { EndsWith(name, "_" + path) && !EndsWith(name, UNDONE) }

  // ------------------------------------------------------------------
  // Drawing a name
  // ------------------------------------------------------------------

  const STAMP_LENGTH := 22

  // A moment to the microsecond, as %Y%m%d-%H%M%S-%f writes it.
  predicate IsStamp(s: string) {
    |s| == STAMP_LENGTH &&
    forall i | 0 <= i < STAMP_LENGTH :: if i == 8 || i == 15 then s[i] == '-' else '0' <= s[i] <= '9'
  }

  type Stamp = s: string | IsStamp(s) witness "20240101-000000-000000"

  function BackupName(stamp: string, path: string): string { stamp + "_" + path }

  // The n-th name tried: a counter follows the stamp from the second try on.
  function Tried(stamp: string, path: string, n: nat): string {
    BackupName(if n == 0 then stamp else stamp + "_" + Decimal(n), path)
  }

  // The first try from the n-th on whose name is not taken.
  function FreeTry(taken: set<string>, stamp: string, path: string, n: nat): nat
    decreases |taken|
  {
    var name := Tried(stamp, path, n);
    if name !in taken then n else FreeTry(taken - {name}, stamp, path, n + 1)
  }

  function Drawn(taken: set<string>, stamp: string, path: string): string {
    Tried(stamp, path, FreeTry(taken, stamp, path, 0))
  }

  lemma {:induction false} DecimalsDiffer(m: nat, n: nat)
    requires m != n
    ensures Decimal(m) != Decimal(n)
  {
    var a, b := Decimal(m), Decimal(n);
    if a == b {
      assert a[|a| - 1] == b[|b| - 1];
      if m >= 10 && n >= 10 {
        assert a[..|a| - 1] == Decimal(m / 10) && b[..|b| - 1] == Decimal(n / 10);
        DecimalsDiffer(m / 10, n / 10);
      }
    }
  }

  // What stands between the stamp and the file's name.
  lemma TriedMiddle(stamp: string, path: string, n: nat)
    requires n > 0
    ensures var name := Tried(stamp, path, n);
            |name| == |stamp| + 1 + |Decimal(n)| + 1 + |path| &&
            name[|stamp| + 1..|name| - |path| - 1] == Decimal(n)
  {
    assert Tried(stamp, path, n) == (stamp + "_") + Decimal(n) + ("_" + path);
  }

  lemma TriesDiffer(stamp: string, path: string, m: nat, n: nat)
    requires m != n
    ensures Tried(stamp, path, m) != Tried(stamp, path, n)
  {
    if m == 0 {
      TriedMiddle(stamp, path, n);
    } else if n == 0 {
      TriedMiddle(stamp, path, m);
    } else {
      TriedMiddle(stamp, path, m);
      TriedMiddle(stamp, path, n);
      DecimalsDiffer(m, n);
    }
  }

  // The counter stops at the first name that is free.
  lemma {:induction false} FreeTryIsFirst(taken: set<string>, stamp: string, path: string, n: nat, i: nat)
    requires n <= i
    ensures var k := FreeTry(taken, stamp, path, n);
            n <= k && Tried(stamp, path, k) !in taken && (i < k ==> Tried(stamp, path, i) in taken)
    decreases |taken|
  {
    var name := Tried(stamp, path, n);
    if name in taken {
      FreeTryIsFirst(taken - {name}, stamp, path, n + 1, if i == n then n + 1 else i);
      TriesDiffer(stamp, path, n, FreeTry(taken, stamp, path, n));
    }
  }

  // The first n names tried.
  function TriedNames(stamp: string, path: string, n: nat): set<string> {
    if n == 0 then {} else TriedNames(stamp, path, n - 1) + {Tried(stamp, path, n - 1)}
  }

  lemma {:induction false} NextTryIsNew(stamp: string, path: string, m: nat, n: nat)
    requires m <= n
    ensures Tried(stamp, path, n) !in TriedNames(stamp, path, m)
  {
    if m > 0 {
      NextTryIsNew(stamp, path, m - 1, n);
      TriesDiffer(stamp, path, m - 1, n);
    }
  }

  // ------------------------------------------------------------------
  // Which files a name is offered for
  // ------------------------------------------------------------------

  // A counter as it is written: a positive number without leading zeros.
  predicate IsCounter(s: string) { s != [] && s[0] != '0' && AllDigits(s) }

  predicate AllDigits(s: string) { s == [] || (AllDigits(s[..|s| - 1]) && '0' <= s[|s| - 1] <= '9') }

  function Value(s: string): (n: nat)
    requires AllDigits(s)
  {
    if s == [] then 0 else 10 * Value(s[..|s| - 1]) + (s[|s| - 1] as int - '0' as int)
  }

  lemma {:induction false} CounterIsDecimal(s: string)
    requires IsCounter(s)
    ensures Value(s) > 0 && Decimal(Value(s)) == s
  {
    var init, last := s[..|s| - 1], s[|s| - 1];
    var digit := last as int - '0' as int;
    assert s == init + [last];
    if init != [] {
      CounterIsDecimal(init);
    }
    DecimalOfDigit(Value(init), digit);
  }

  lemma DecimalOfDigit(n: nat, digit: nat)
    requires digit < 10
    ensures Decimal(10 * n + digit) == (if n == 0 then [] else Decimal(n)) + [('0' as int + digit) as char]
  {
    assert (10 * n + digit) / 10 == n && (10 * n + digit) % 10 == digit;
  }

  lemma {:induction false} DecimalIsCounter(n: nat)
    requires n > 0
    ensures IsCounter(Decimal(n))
  {
    if n >= 10 {
      DecimalIsCounter(n / 10);
    }
  }

  // A backup of `q` can bear a name that is offered for `p`: the name `q` ends with
  // `_p`, or `p` is `q` behind a counter and an underscore.
  predicate Collides(p: string, q: string) {
    p != q && !EndsWith(q, UNDONE) &&
    (EndsWith(q, "_" + p) || (EndsWith(p, "_" + q) && IsCounter(p[..|p| - |q| - 1])))
  }

  lemma ConcatEnds(x: string, y: string, k: nat)
    requires k <= |y|
    ensures (x + y)[|x + y| - k..] == y[|y| - k..]
  {}

  lemma NameEnds(stamp: string, path: string, k: nat)
    requires k <= |path| + 1
    ensures var name := BackupName(stamp, path); name[|name| - k..] == ("_" + path)[|path| + 1 - k..]
  {
    var end := "_" + path;
    assert BackupName(stamp, path) == stamp + end;
    ConcatEnds(stamp, end, k);
  }

  lemma UndoneName(stamp: string, path: string)
    ensures EndsWith(BackupName(stamp, path), UNDONE) <==> EndsWith(path, UNDONE)
  {
    var name := BackupName(stamp, path);
    if |UNDONE| <= |path| {
      NameEnds(stamp, path, |UNDONE|);
      assert ("_" + path)[|path| + 1 - |UNDONE|..] == path[|path| - |UNDONE|..];
    } else {
      var j := |UNDONE| - |path| - 1;
      assert UNDONE[j] != '_' && name[|stamp|] == '_';
      if |UNDONE| <= |name| {
        assert name[|name| - |UNDONE|..][j] == name[|stamp|];
      }
    }
  }

  // A backup is offered for its own file unless that file's name ends like a used backup's.
  lemma OwnName(stamp: string, path: string)
    ensures Offered(path, BackupName(stamp, path)) <==> !EndsWith(path, UNDONE)
  {
    NameEnds(stamp, path, |path| + 1);
    UndoneName(stamp, path);
  }

  // Ahead of the underscore before the file's own name there is at most the counter's.
  lemma UnderscoreAt(q: string, stamp: Stamp, n: nat, i: nat)
    requires var name := Tried(stamp, q, n); i < |name| - |q| - 1 && name[i] == '_'
    ensures n > 0 && i == STAMP_LENGTH
  {
    if n > 0 {
      TriedMiddle(stamp, q, n);
      DecimalHasDigits(n);
    }
  }

  lemma LongerEnding(p: string, q: string, stamp: Stamp, n: nat)
    requires |p| > |q| && EndsWith(Tried(stamp, q, n), "_" + p)
    ensures n > 0 && p == Decimal(n) + ("_" + q)
  {
    var name := Tried(stamp, q, n);
    var start := |name| - |p|;
    assert name[start - 1..] == "_" + p;
    assert name[start - 1] == '_' && name[start..] == p;
    UnderscoreAt(q, stamp, n, start - 1);
    TriedMiddle(stamp, q, n);
    NameEnds(stamp + "_" + Decimal(n), q, |q| + 1);
    assert name[start..] == name[start..|name| - |q| - 1] + name[|name| - |q| - 1..];
  }

  lemma ShorterEnding(p: string, q: string, head: string)
    requires |p| <= |q| && EndsWith(BackupName(head, q), "_" + p)
    ensures p == q || EndsWith(q, "_" + p)
  {
    NameEnds(head, q, |p| + 1);
    assert ("_" + p)[1..] == p && ("_" + q)[1..] == q;
    if |p| < |q| {
      assert q[|q| - |p| - 1..] == ("_" + q)[|q| - |p|..];
    }
  }

  // No name drawn for another file is offered for this one unless the two collide.
  lemma ForeignName(p: string, q: string, stamp: Stamp, n: nat)
    requires p != q && !Collides(p, q)
    ensures !Offered(p, Tried(stamp, q, n))
  {
    var head := if n == 0 then stamp else stamp + "_" + Decimal(n);
    OwnName(head, q);
    if EndsWith(q, UNDONE) {
      NameEnds(head, q, |q| + 1);
    } else if EndsWith(Tried(stamp, q, n), "_" + p) {
      if |p| > |q| {
        LongerEnding(p, q, stamp, n);
        DecimalIsCounter(n);
      } else {
        ShorterEnding(p, q, head);
      }
    }
  }

  // Every backup of a file whose name ends with `_p` is offered for `p`.
  lemma SiblingName(p: string, q: string, head: string)
    requires EndsWith(q, "_" + p) && !EndsWith(q, UNDONE)
    ensures Offered(p, BackupName(head, q))
  {
    OwnName(head, q);
    NameEnds(head, q, |p| + 1);
    assert q[|q| - |p| - 1..] == ("_" + q)[|q| - |p|..];
  }

  // When two names collide, some number of tries gives a name that is offered for both.
  function TryFor(p: string, q: string): nat
    requires Collides(p, q)
  {
    if EndsWith(q, "_" + p) then 0 else Value(p[..|p| - |q| - 1])
  }

  lemma NameBehindCounter(stamp: string, counter: string, p: string, q: string)
    requires p == counter + ("_" + q)
    ensures BackupName(stamp + "_" + counter, q) == BackupName(stamp, p)
  {
    assert (stamp + "_") + (counter + ("_" + q)) == ((stamp + "_") + counter) + ("_" + q);
  }

  lemma CollidingName(p: string, q: string, stamp: string)
    requires Collides(p, q)
    ensures Offered(p, Tried(stamp, q, TryFor(p, q)))
  {
    if EndsWith(q, "_" + p) {
      SiblingName(p, q, stamp);
    } else {
      var counter := p[..|p| - |q| - 1];
      CounterIsDecimal(counter);
      OwnName(stamp + "_" + counter, q);
      assert p == counter + ("_" + q);
      NameBehindCounter(stamp, counter, p, q);
      NameEnds(stamp, p, |p| + 1);
    }
  }
}

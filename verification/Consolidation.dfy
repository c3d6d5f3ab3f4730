// Merging duplicate memories and archiving unimportant ones.
module Consolidation {
  import Text

  datatype Kind = Episodic | Semantic | Procedural | Preference | Failure
  datatype Status = Active | Superseded | Invalid | Archived
  datatype Confidence = High | Stated(word: string)

  // The free text of a memory; only this passes through redaction.
  datatype Words = Words(title: string, content: string, source: string, outcome: string)

  datatype Memory = Memory(
    id: string, kind: Kind, words: Words, environment: string, component: string,
    confidence: Confidence, importance: real, status: Status, provenance: seq<string>)

  datatype Key = Key(kind: Kind, environment: string, component: string, title: string, content: string)

  // How memories are compared and what redaction makes of their words.
  datatype Rules = Rules(key: (Kind, string, string, Words) -> Key, redact: Words -> Words)

  // The system's rules, given case folding and the removal of secrets.
  function TextRules(lower: string -> string, redact: string -> string): Rules {
    Rules(
      (kind: Kind, environment: string, component: string, w: Words) =>
        Key(kind, lower(environment), lower(component), lower(Text.Strip(w.title)), lower(Text.Strip(w.content))),
      (w: Words) => Words(redact(w.title), redact(w.content), redact(w.source), redact(w.outcome)))
  }

  function KeyOf(t: Rules, m: Memory): Key { t.key(m.kind, m.environment, m.component, m.words) }

  // dict.fromkeys: the first copy of each item, in order.
  function Dedup(xs: seq<string>): seq<string> {
    if xs == [] then []
    else
      var rest := Dedup(xs[..|xs| - 1]);
      if xs[|xs| - 1] in rest then rest else rest + [xs[|xs| - 1]]
  }

  lemma {:induction false} DedupHolds(xs: seq<string>, x: string)
    ensures x in Dedup(xs) <==> x in xs
  {
    if xs != [] {
      DedupHolds(xs[..|xs| - 1], x);
      assert xs == xs[..|xs| - 1] + [xs[|xs| - 1]];
    }
  }

  predicate NoRepeats(xs: seq<string>) { forall i, j :: 0 <= i < j < |xs| ==> xs[i] != xs[j] }

  lemma {:induction false} DedupDiffers(xs: seq<string>)
    ensures NoRepeats(Dedup(xs))
  {
    if xs != [] {
      DedupDiffers(xs[..|xs| - 1]);
      if xs[|xs| - 1] !in Dedup(xs[..|xs| - 1]) {
        DistinctPlus(Dedup(xs[..|xs| - 1]), xs[|xs| - 1]);
      }
    }
  }

  lemma DistinctPlus(xs: seq<string>, x: string)
    requires NoRepeats(xs) && x !in xs
    ensures NoRepeats(xs + [x])
  {}

  // The keeper takes over what a later duplicate knows, and is stored again.
  function Absorb(t: Rules, keeper: Memory, m: Memory): Memory {
    keeper.(
      words := t.redact(keeper.words),
      importance := if m.importance > keeper.importance then m.importance else keeper.importance,
      confidence := if keeper.confidence == High || m.confidence == High then High else keeper.confidence,
      provenance := Dedup(keeper.provenance + m.provenance + [m.id]))
  }

  predicate Archivable(m: Memory, low: real) {
    m.importance <= low && m.kind != Episodic && m.kind != Failure && m.words.outcome == ""
  }

  // ------------------------------------------------------------------
  // What becomes of each listed memory
  // ------------------------------------------------------------------

  predicate SameKey(t: Rules, ms: seq<Memory>, i: nat, j: nat)
    requires i < |ms| && j < |ms|
  {
    KeyOf(t, ms[i]) == KeyOf(t, ms[j])
  }

  predicate First(t: Rules, ms: seq<Memory>, i: nat)
    requires i < |ms|
  {
    forall j | 0 <= j < i :: !SameKey(t, ms, i, j)
  }

  // Memory `i` after the first `n` have been looked at, had it been kept.
  function Absorbed(t: Rules, ms: seq<Memory>, i: nat, n: nat): Memory
    requires i < |ms| && n <= |ms|
    decreases n
  {
    if n <= i + 1 then ms[i]
    else if SameKey(t, ms, i, n - 1) then Absorb(t, Absorbed(t, ms, i, n - 1), ms[n - 1])
    else Absorbed(t, ms, i, n - 1)
  }

  function MemoryAfter(t: Rules, ms: seq<Memory>, i: nat, n: nat): Memory
    requires i < |ms| && n <= |ms|
  {
    if i >= n then ms[i]
    else if First(t, ms, i) then Absorbed(t, ms, i, n)
    else ms[i].(status := Superseded)
  }

  function Final(t: Rules, low: real, ms: seq<Memory>, i: nat): Memory
    requires i < |ms|
  {
    var m := MemoryAfter(t, ms, i, |ms|);
    if m.status == Active && Archivable(m, low) then m.(status := Archived) else m
  }

  predicate Listing(ms: seq<Memory>) {
    (forall m <- ms :: m.status == Active) && forall i, j :: 0 <= i < j < |ms| ==> ms[i].id != ms[j].id
  }

  // ------------------------------------------------------------------
  // What the merge keeps
  // ------------------------------------------------------------------

  lemma {:induction false} AbsorbedKeeps(t: Rules, ms: seq<Memory>, i: nat, n: nat)
    requires i < |ms| && n <= |ms|
    ensures var m := Absorbed(t, ms, i, n);
            m.id == ms[i].id && m.kind == ms[i].kind && m.status == ms[i].status &&
            m.environment == ms[i].environment && m.component == ms[i].component
    decreases n
  {
    if n > i + 1 {
      AbsorbedKeeps(t, ms, i, n - 1);
    }
  }

  predicate InGroup(t: Rules, ms: seq<Memory>, i: nat, n: nat, j: nat)
    requires i < n <= |ms|
  {
    i <= j < n && SameKey(t, ms, i, j)
  }

  // The keeper carries its group's greatest importance.
  lemma {:induction false} KeeperIsGreatest(t: Rules, ms: seq<Memory>, i: nat, n: nat)
    requires i < n <= |ms|
    ensures forall j: nat :: InGroup(t, ms, i, n, j) ==> ms[j].importance <= Absorbed(t, ms, i, n).importance
    ensures exists j: nat :: InGroup(t, ms, i, n, j) && ms[j].importance == Absorbed(t, ms, i, n).importance
    decreases n
  {
    if n == i + 1 {
      assert InGroup(t, ms, i, n, i);
    } else {
      KeeperIsGreatest(t, ms, i, n - 1);
      var k: nat :| InGroup(t, ms, i, n - 1, k) && ms[k].importance == Absorbed(t, ms, i, n - 1).importance;
      assert InGroup(t, ms, i, n, k);
      if SameKey(t, ms, i, n - 1) {
        assert InGroup(t, ms, i, n, n - 1);
      }
      forall j: nat | InGroup(t, ms, i, n, j) ensures ms[j].importance <= Absorbed(t, ms, i, n).importance {
        if j < n - 1 { assert InGroup(t, ms, i, n - 1, j); }
      }
    }
  }

  // It is High exactly when some member of its group was.
  lemma {:induction false} KeeperConfidence(t: Rules, ms: seq<Memory>, i: nat, n: nat)
    requires i < n <= |ms|
    ensures Absorbed(t, ms, i, n).confidence == High <==>
            exists j: nat :: InGroup(t, ms, i, n, j) && ms[j].confidence == High
    ensures Absorbed(t, ms, i, n).confidence in {High, ms[i].confidence}
    decreases n
  {
    if n == i + 1 {
      assert InGroup(t, ms, i, n, i);
    } else {
      KeeperConfidence(t, ms, i, n - 1);
      forall j: nat | j < n - 1 ensures InGroup(t, ms, i, n, j) <==> InGroup(t, ms, i, n - 1, j) {}
      assert InGroup(t, ms, i, n, n - 1) <==> SameKey(t, ms, i, n - 1);
    }
  }

  // Nothing a superseded memory was traced to is lost, and it is itself named.
  lemma {:induction false} KeeperNamesItsGroup(t: Rules, ms: seq<Memory>, i: nat, n: nat, x: string)
    requires i < n <= |ms|
    ensures x in Absorbed(t, ms, i, n).provenance <==>
            x in ms[i].provenance ||
            exists j: nat :: i < j && InGroup(t, ms, i, n, j) && (x == ms[j].id || x in ms[j].provenance)
    decreases n
  {
    if n > i + 1 {
      KeeperNamesItsGroup(t, ms, i, n - 1, x);
      forall j: nat | j < n - 1 ensures InGroup(t, ms, i, n, j) <==> InGroup(t, ms, i, n - 1, j) {}
      assert InGroup(t, ms, i, n, n - 1) <==> SameKey(t, ms, i, n - 1);
      if SameKey(t, ms, i, n - 1) {
        DedupHolds(Absorbed(t, ms, i, n - 1).provenance + ms[n - 1].provenance + [ms[n - 1].id], x);
      }
    }
  }

  lemma Earliest(t: Rules, ms: seq<Memory>, j: nat) returns (i: nat)
    requires j < |ms|
    ensures i <= j && SameKey(t, ms, i, j) && First(t, ms, i)
    decreases j
  {
    if First(t, ms, j) {
      i := j;
    } else {
      var k :| 0 <= k < j && SameKey(t, ms, j, k);
      i := Earliest(t, ms, k);
    }
  }

  // Redacting twice is redacting once.
  predicate Idempotent(t: Rules, ms: seq<Memory>) {
    forall m <- ms :: t.redact(t.redact(m.words)) == t.redact(m.words)
  }

  predicate HasTwin(t: Rules, ms: seq<Memory>, i: nat, n: nat)
    requires i < |ms| && n <= |ms|
  {
    exists j :: i < j < n && SameKey(t, ms, i, j)
  }

  // A keeper is stored again, redacted, exactly when it has a later twin.
  lemma {:induction false} KeeperWords(t: Rules, ms: seq<Memory>, i: nat, n: nat)
    requires i < |ms| && n <= |ms| && Idempotent(t, ms)
    ensures Absorbed(t, ms, i, n).words == if HasTwin(t, ms, i, n) then t.redact(ms[i].words) else ms[i].words
    decreases n
  {
    if n > i + 1 {
      KeeperWords(t, ms, i, n - 1);
      assert ms[i] in ms;
      assert HasTwin(t, ms, i, n) <==> HasTwin(t, ms, i, n - 1) || SameKey(t, ms, i, n - 1);
    }
  }

  // The key a kept memory is left with.
  function StoredKey(t: Rules, ms: seq<Memory>, i: nat): Key
    requires i < |ms|
  {
    KeyOf(t, if HasTwin(t, ms, i, |ms|) then ms[i].(words := t.redact(ms[i].words)) else ms[i])
  }

  // Every memory listed as active ends up in exactly one place: kept, superseded
  // by an earlier one with its key, or archived.
  lemma FinalSplits(t: Rules, low: real, ms: seq<Memory>, i: nat)
    requires Listing(ms) && i < |ms|
    ensures var f := Final(t, low, ms, i); var m := Absorbed(t, ms, i, |ms|);
            f.id == ms[i].id &&
            (f.status == Superseded <==> exists j :: 0 <= j < i && SameKey(t, ms, i, j)) &&
            (f.status == Archived <==> First(t, ms, i) && Archivable(m, low)) &&
            (f.status == Active <==> First(t, ms, i) && !Archivable(m, low)) &&
            (f.status == Active ==> f == m)
  {
    AbsorbedKeeps(t, ms, i, |ms|);
    assert ms[i] in ms;
  }

  predicate Kept(t: Rules, low: real, ms: seq<Memory>, i: nat)
    requires i < |ms|
  {
    First(t, ms, i) && !Archivable(Absorbed(t, ms, i, |ms|), low)
  }

  lemma KeptKey(t: Rules, low: real, ms: seq<Memory>, i: nat)
    requires Listing(ms) && Idempotent(t, ms) && i < |ms|
    ensures Final(t, low, ms, i).status == Active <==> Kept(t, low, ms, i)
    ensures Kept(t, low, ms, i) ==> KeyOf(t, Final(t, low, ms, i)) == StoredKey(t, ms, i)
  {
    FinalSplits(t, low, ms, i);
    KeeperWords(t, ms, i, |ms|);
    AbsorbedKeeps(t, ms, i, |ms|);
  }

  // No two kept memories are left with one key.
  predicate KeptDiffer(t: Rules, low: real, ms: seq<Memory>) {
    forall i, j :: 0 <= i < j < |ms| && Kept(t, low, ms, i) && Kept(t, low, ms, j) ==>
      StoredKey(t, ms, i) != StoredKey(t, ms, j)
  }

  // Redaction leaves the key alone.
  predicate KeyStays(t: Rules, m: Memory) { KeyOf(t, m.(words := t.redact(m.words))) == KeyOf(t, m) }

  lemma RedactedKeptDiffer(t: Rules, low: real, ms: seq<Memory>)
    requires forall m <- ms :: KeyStays(t, m)
    ensures KeptDiffer(t, low, ms)
  {
    forall i: nat | i < |ms| ensures StoredKey(t, ms, i) == KeyOf(t, ms[i]) {
      assert KeyStays(t, ms[i]);
    }
    forall i, j | 0 <= i < j < |ms| && Kept(t, low, ms, i) && Kept(t, low, ms, j)
      ensures StoredKey(t, ms, i) != StoredKey(t, ms, j)
    {
      assert !SameKey(t, ms, j, i);
    }
  }

  // A superseded memory is named by the one that was kept for its key, which
  // is at least as important.
  lemma SupersededIsAbsorbed(t: Rules, low: real, ms: seq<Memory>, j: nat) returns (i: nat)
    requires Listing(ms) && j < |ms| && Final(t, low, ms, j).status == Superseded
    ensures i < j && SameKey(t, ms, i, j) && First(t, ms, i)
    ensures ms[j].id in Final(t, low, ms, i).provenance
    ensures ms[j].importance <= Final(t, low, ms, i).importance
  {
    FinalSplits(t, low, ms, j);
    i := Earliest(t, ms, j);
    KeeperIsGreatest(t, ms, i, |ms|);
    KeeperNamesItsGroup(t, ms, i, |ms|, ms[j].id);
    assert InGroup(t, ms, i, |ms|, j);
    AbsorbedKeeps(t, ms, i, |ms|);
  }

  // Among memories with different keys, none of which can be archived, there
  // is nothing to do.
  lemma NothingLeftToDo(t: Rules, low: real, ms: seq<Memory>, i: nat)
    requires i < |ms|
    requires KeysDiffer(t, ms)
    requires forall m <- ms :: !Archivable(m, low)
    ensures Final(t, low, ms, i) == ms[i]
  {
    assert First(t, ms, i) by {
      forall j | 0 <= j < i ensures !SameKey(t, ms, i, j) {
        assert !SameKey(t, ms, j, i);
      }
    }
    AloneStays(t, ms, i, |ms|);
  }

  lemma {:induction false} AloneStays(t: Rules, ms: seq<Memory>, i: nat, n: nat)
    requires i < |ms| && n <= |ms|
    requires forall b :: i < b < |ms| ==> !SameKey(t, ms, i, b)
    ensures Absorbed(t, ms, i, n) == ms[i]
    decreases n
  {
    if n > i + 1 {
      AloneStays(t, ms, i, n - 1);
    }
  }

  // ------------------------------------------------------------------
  // The store
  // ------------------------------------------------------------------

  type Rows = map<string, Memory>

  predicate Table(order: seq<string>, rows: Rows) {
    (forall id <- order :: id in rows && rows[id].id == id) &&
    forall i, j :: 0 <= i < j < |order| ==> order[i] != order[j]
  }

  // The active memories, newest first.
  function ActiveOf(order: seq<string>, rows: Rows): seq<Memory>
    requires forall id <- order :: id in rows
  {
    if order == [] then []
    else if rows[order[0]].status == Active then [rows[order[0]]] + ActiveOf(order[1..], rows)
    else ActiveOf(order[1..], rows)
  }

  lemma ActiveOfHolds(order: seq<string>, rows: Rows, m: Memory)
    requires Table(order, rows)
    ensures m in ActiveOf(order, rows) <==> m.id in order && m == rows[m.id] && m.status == Active
  {
    if order != [] {
      ActiveOfHolds(order[1..], rows, m);
      assert m.id in order <==> m.id == order[0] || m.id in order[1..];
    }
  }

  lemma ActiveIsListing(order: seq<string>, rows: Rows)
    requires Table(order, rows)
    ensures Listing(ActiveOf(order, rows))
  {
    if order != [] {
      ActiveIsListing(order[1..], rows);
      forall m | m in ActiveOf(order[1..], rows) ensures m.id != order[0] {
        ActiveOfHolds(order[1..], rows, m);
      }
    }
  }

  // What a consolidation makes of the table.
  ghost predicate Consolidated(t: Rules, low: real, order: seq<string>, before: Rows, after: Rows)
    requires Table(order, before)
  {
    var ms := ActiveOf(order, before);
    Table(order, after) && after.Keys == before.Keys &&
    (forall i :: 0 <= i < |ms| ==> ms[i].id in after && after[ms[i].id] == Final(t, low, ms, i)) &&
    (forall id :: id in before && (id in order ==> before[id].status != Active) ==> after[id] == before[id])
  }

  // Of a consolidated table: the active memories are the kept ones, and a
  // second consolidation changes nothing.
  lemma ActiveAfterwards(t: Rules, low: real, order: seq<string>, before: Rows, after: Rows, m: Memory)
      returns (i: nat)
    requires Table(order, before) && Consolidated(t, low, order, before, after)
    requires m in ActiveOf(order, after)
    ensures var ms := ActiveOf(order, before);
            i < |ms| && m == Final(t, low, ms, i) && m.status == Active
  {
    var ms := ActiveOf(order, before);
    ActiveOfHolds(order, after, m);
    assert before[m.id].status == Active;
    ActiveOfHolds(order, before, before[m.id]);
    i :| 0 <= i < |ms| && ms[i] == before[m.id];
  }

  predicate KeysDiffer(t: Rules, ms: seq<Memory>) {
    forall a, b :: 0 <= a < b < |ms| ==> !SameKey(t, ms, a, b)
  }

  lemma {:induction false} KeptIsActive(t: Rules, low: real, order: seq<string>, before: Rows, after: Rows, i: nat) returns (a: nat)
    requires Table(order, before) && Consolidated(t, low, order, before, after)
    requires var ms := ActiveOf(order, before); i < |ms| && Final(t, low, ms, i).status == Active
    ensures var ms := ActiveOf(order, before); var listed := ActiveOf(order, after);
            a < |listed| && listed[a] == Final(t, low, ms, i) && listed[a].id == ms[i].id
  {
    var ms := ActiveOf(order, before);
    var listed := ActiveOf(order, after);
    ActiveIsListing(order, before);
    ActiveOfHolds(order, before, ms[i]);
    FinalSplits(t, low, ms, i);
    var m := after[ms[i].id];
    ActiveOfHolds(order, after, m);
    a :| 0 <= a < |listed| && listed[a] == m;
  }

  lemma SameKeySymmetric(t: Rules, ms: seq<Memory>, a: nat, b: nat)
    requires a < |ms| && b < |ms| && a != b && KeysDiffer(t, ms)
    ensures KeyOf(t, ms[a]) != KeyOf(t, ms[b])
  {
    assert !SameKey(t, ms, a, b) || !SameKey(t, ms, b, a);
  }

  // After a consolidation no two active memories share a key, exactly when no two kept
  // ones are left with the same.
  lemma {:induction false} ActiveKeysDifferIff(t: Rules, low: real, order: seq<string>, before: Rows, after: Rows)
    requires Table(order, before) && Consolidated(t, low, order, before, after)
    requires Idempotent(t, ActiveOf(order, before))
    ensures KeysDiffer(t, ActiveOf(order, after)) <==> KeptDiffer(t, low, ActiveOf(order, before))
  {
    var ms := ActiveOf(order, before);
    var listed := ActiveOf(order, after);
    ActiveIsListing(order, before);
    ActiveIsListing(order, after);
    if KeptDiffer(t, low, ms) {
      forall a, b | 0 <= a < b < |listed| ensures !SameKey(t, listed, a, b) {
        var i := ActiveAfterwards(t, low, order, before, after, listed[a]);
        var j := ActiveAfterwards(t, low, order, before, after, listed[b]);
        KeptKey(t, low, ms, i);
        KeptKey(t, low, ms, j);
        assert i != j;
        assert StoredKey(t, ms, if i < j then i else j) != StoredKey(t, ms, if i < j then j else i);
      }
    }
    if KeysDiffer(t, listed) {
      forall i, j | 0 <= i < j < |ms| && Kept(t, low, ms, i) && Kept(t, low, ms, j)
        ensures StoredKey(t, ms, i) != StoredKey(t, ms, j)
      {
        KeptKey(t, low, ms, i);
        KeptKey(t, low, ms, j);
        var a := KeptIsActive(t, low, order, before, after, i);
        var b := KeptIsActive(t, low, order, before, after, j);
        assert a != b;
        SameKeySymmetric(t, listed, a, b);
      }
    }
  }

  lemma LaterTwinGoes(t: Rules, low: real, ms: seq<Memory>, a: nat, b: nat)
    requires Listing(ms) && a < b < |ms| && SameKey(t, ms, a, b)
    ensures Final(t, low, ms, b) != ms[b]
  {
    FinalSplits(t, low, ms, b);
    assert SameKey(t, ms, b, a) && ms[b] in ms;
  }

  // A second consolidation changes nothing exactly when the active memories then differ
  // in their keys.
  lemma {:induction false} SecondRunIff(t: Rules, low: real, order: seq<string>, before: Rows, after: Rows, again: Rows)
    requires Table(order, before) && Consolidated(t, low, order, before, after)
    requires Consolidated(t, low, order, after, again)
    ensures again == after <==> KeysDiffer(t, ActiveOf(order, after))
  {
    var ms := ActiveOf(order, after);
    ActiveIsListing(order, before);
    ActiveIsListing(order, after);
    if KeysDiffer(t, ms) {
      forall m | m in ms ensures !Archivable(m, low) {
        var i := ActiveAfterwards(t, low, order, before, after, m);
        FinalSplits(t, low, ActiveOf(order, before), i);
      }
      forall id | id in after ensures again[id] == after[id] {
        if id in order && after[id].status == Active {
          ActiveOfHolds(order, after, after[id]);
          var i :| 0 <= i < |ms| && ms[i] == after[id];
          NothingLeftToDo(t, low, ms, i);
        }
      }
    } else {
      var a, b :| 0 <= a < b < |ms| && SameKey(t, ms, a, b);
      LaterTwinGoes(t, low, ms, a, b);
      ActiveOfHolds(order, after, ms[b]);
    }
  }
}

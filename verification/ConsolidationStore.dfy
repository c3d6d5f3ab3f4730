// The two passes of a consolidation over the store, and the store itself.
module ConsolidationStore {
  import opened Consolidation

  // ------------------------------------------------------------------
  // The consolidation itself
  // ------------------------------------------------------------------

  lemma FirstIsUnique(t: Rules, ms: seq<Memory>, i: nat, j: nat)
    requires i < |ms| && j < |ms| && First(t, ms, i) && First(t, ms, j) && SameKey(t, ms, i, j)
    ensures i == j
  {
    if i < j { assert SameKey(t, ms, j, i); }
  }

  // `ms` lists memories as `rows` holds them.
  ghost predicate Loaded(ms: seq<Memory>, rows: Rows) {
    Listing(ms) && forall i :: 0 <= i < |ms| ==> ms[i].id in rows && rows[ms[i].id] == ms[i]
  }

  // The superseded memories, in the order of the listing.
  function DuplicateIds(t: Rules, ms: seq<Memory>, n: nat): seq<string>
    requires n <= |ms|
  {
    if n == 0 then []
    else if First(t, ms, n - 1) then DuplicateIds(t, ms, n - 1)
    else DuplicateIds(t, ms, n - 1) + [ms[n - 1].id]
  }

  // The pass over the listed memories, one memory at a time.
  datatype Pass = Pass(rows: Rows, survivors: map<Key, Memory>, consolidated: seq<string>)

  function Mark(rows: Rows, id: string, status: Status): Rows {
    if id in rows then rows[id := rows[id].(status := status)] else rows
  }

  function Step(t: Rules, p: Pass, m: Memory): Pass {
    var key := KeyOf(t, m);
    if key !in p.survivors then p.(survivors := p.survivors[key := m])
    else
      var keeper := Absorb(t, p.survivors[key], m);
      Pass(Mark(p.rows[keeper.id := keeper], m.id, Superseded), p.survivors[key := keeper], p.consolidated + [m.id])
  }

  function PassOver(t: Rules, ms: seq<Memory>, before: Rows, n: nat): Pass
    requires n <= |ms|
  {
    if n == 0 then Pass(before, map[], []) else Step(t, PassOver(t, ms, before, n - 1), ms[n - 1])
  }

  lemma {:induction false} SurvivorKeys(t: Rules, ms: seq<Memory>, before: Rows, n: nat, k: Key)
    requires n <= |ms|
    ensures k in PassOver(t, ms, before, n).survivors <==> exists i :: 0 <= i < n && KeyOf(t, ms[i]) == k
  {
    if n > 0 {
      SurvivorKeys(t, ms, before, n - 1, k);
    }
  }

  // The pass meets a known key exactly when the memory is not the first of its group.
  lemma KnownIffLater(t: Rules, ms: seq<Memory>, before: Rows, n: nat)
    requires n < |ms|
    ensures KeyOf(t, ms[n]) in PassOver(t, ms, before, n).survivors <==> !First(t, ms, n)
  {
    SurvivorKeys(t, ms, before, n, KeyOf(t, ms[n]));
    if First(t, ms, n) {
      forall i | 0 <= i < n ensures KeyOf(t, ms[i]) != KeyOf(t, ms[n]) {
        assert !SameKey(t, ms, n, i);
      }
    }
  }

  lemma {:induction false} SurvivorIsAbsorbed(t: Rules, ms: seq<Memory>, before: Rows, n: nat, i: nat)
    requires i < n <= |ms| && First(t, ms, i)
    ensures var s := PassOver(t, ms, before, n).survivors;
            KeyOf(t, ms[i]) in s && s[KeyOf(t, ms[i])] == Absorbed(t, ms, i, n)
    decreases n
  {
    KnownIffLater(t, ms, before, n - 1);
    if i < n - 1 {
      SurvivorIsAbsorbed(t, ms, before, n - 1, i);
    }
  }

  lemma AfterFirst(t: Rules, ms: seq<Memory>, n: nat, i: nat)
    requires n < |ms| && First(t, ms, n) && i < |ms|
    ensures MemoryAfter(t, ms, i, n + 1) == MemoryAfter(t, ms, i, n)
  {
    if i < n {
      assert !SameKey(t, ms, n, i);
    }
  }

  lemma AfterLater(t: Rules, ms: seq<Memory>, n: nat, k: nat, i: nat)
    requires k < n < |ms| && First(t, ms, k) && SameKey(t, ms, k, n) && i < |ms|
    ensures MemoryAfter(t, ms, i, n + 1)
            == if i == k then Absorb(t, Absorbed(t, ms, k, n), ms[n])
               else if i == n then ms[n].(status := Superseded)
               else MemoryAfter(t, ms, i, n)
  {
    if i == n {
      assert SameKey(t, ms, n, k);
    } else if i < n && First(t, ms, i) {
      if SameKey(t, ms, i, n) { FirstIsUnique(t, ms, i, k); }
    }
  }

  lemma StepKnown(t: Rules, p: Pass, m: Memory, id: string)
    requires KeyOf(t, m) in p.survivors && p.survivors[KeyOf(t, m)].id != m.id
    requires m.id in p.rows && id in p.rows
    ensures var keeper := Absorb(t, p.survivors[KeyOf(t, m)], m); var rows := Step(t, p, m).rows;
            id in rows &&
            rows[id] == if id == m.id then p.rows[m.id].(status := Superseded)
                        else if id == keeper.id then keeper else p.rows[id]
  {}

  // Each listed memory's row, after any part of the pass.
  lemma {:induction false} PassRow(t: Rules, ms: seq<Memory>, before: Rows, n: nat, i: nat)
    requires Loaded(ms, before) && n <= |ms| && i < |ms|
    ensures var rows := PassOver(t, ms, before, n).rows;
            ms[i].id in rows && rows[ms[i].id] == MemoryAfter(t, ms, i, n)
    decreases n
  {
    if n > 0 {
      var m := n - 1;
      PassRow(t, ms, before, m, i);
      PassRow(t, ms, before, m, m);
      KnownIffLater(t, ms, before, m);
      if First(t, ms, m) {
        AfterFirst(t, ms, m, i);
      } else {
        var k := Earliest(t, ms, m);
        SurvivorIsAbsorbed(t, ms, before, m, k);
        AbsorbedKeeps(t, ms, k, m);
        AfterLater(t, ms, m, k, i);
        assert k < m && ms[k].id != ms[m].id;
        StepKnown(t, PassOver(t, ms, before, m), ms[m], ms[i].id);
        assert ms[i].id == ms[k].id <==> i == k;
        assert ms[i].id == ms[m].id <==> i == m;
      }
    }
  }

  predicate Unlisted(ms: seq<Memory>, id: string) { forall m <- ms :: m.id != id }

  lemma {:induction false} PassOther(t: Rules, ms: seq<Memory>, before: Rows, n: nat, id: string)
    requires n <= |ms| && Unlisted(ms, id)
    ensures var rows := PassOver(t, ms, before, n).rows;
            (id in rows <==> id in before) && (id in before ==> rows[id] == before[id])
    decreases n
  {
    if n > 0 {
      var m := n - 1;
      PassOther(t, ms, before, m, id);
      KnownIffLater(t, ms, before, m);
      assert ms[m] in ms;
      if !First(t, ms, m) {
        var k := Earliest(t, ms, m);
        SurvivorIsAbsorbed(t, ms, before, m, k);
        AbsorbedKeeps(t, ms, k, m);
        assert ms[k] in ms;
      }
    }
  }

  // The table after the first pass, in terms of the groups.
  lemma PassTable(t: Rules, order: seq<string>, before: Rows, id: string)
    requires Table(order, before)
    ensures var ms := ActiveOf(order, before); var rows := PassOver(t, ms, before, |ms|).rows;
            (id in rows <==> id in before) &&
            (id in before && (id in order ==> before[id].status != Active) ==> rows[id] == before[id]) &&
            (forall i: nat :: i < |ms| && ms[i].id == id ==> id in rows && rows[id] == MemoryAfter(t, ms, i, |ms|))
  {
    var ms := ActiveOf(order, before);
    ActiveIsLoaded(order, before);
    if i: nat :| i < |ms| && ms[i].id == id {
      forall j: nat | j < |ms| && ms[j].id == id ensures j == i {}
      PassRow(t, ms, before, |ms|, i);
      ActiveOfHolds(order, before, ms[i]);
    } else {
      PassOther(t, ms, before, |ms|, id);
    }
  }

  lemma ActiveIsLoaded(order: seq<string>, rows: Rows)
    requires Table(order, rows)
    ensures Loaded(ActiveOf(order, rows), rows)
  {
    ActiveIsListing(order, rows);
    forall m | m in ActiveOf(order, rows) ensures m.id in rows && rows[m.id] == m {
      ActiveOfHolds(order, rows, m);
    }
  }

  lemma {:induction false} PassNames(t: Rules, ms: seq<Memory>, before: Rows, n: nat)
    requires n <= |ms|
    ensures PassOver(t, ms, before, n).consolidated == DuplicateIds(t, ms, n)
  {
    if n > 0 {
      PassNames(t, ms, before, n - 1);
      KnownIffLater(t, ms, before, n - 1);
    }
  }

  // The second pass archives what is unimportant.
  function Swept(low: real, ms: seq<Memory>, rows: Rows, n: nat): Rows
    requires n <= |ms|
  {
    if n == 0 then rows
    else if Archivable(ms[n - 1], low) then Mark(Swept(low, ms, rows, n - 1), ms[n - 1].id, Archived)
    else Swept(low, ms, rows, n - 1)
  }

  function SweptIds(low: real, ms: seq<Memory>, n: nat): seq<string>
    requires n <= |ms|
  {
    if n == 0 then []
    else if Archivable(ms[n - 1], low) then SweptIds(low, ms, n - 1) + [ms[n - 1].id]
    else SweptIds(low, ms, n - 1)
  }

  lemma {:induction false} SweptRows(low: real, order: seq<string>, rows: Rows, ms: seq<Memory>, n: nat, id: string)
    requires Table(order, rows) && ms == ActiveOf(order, rows) && n <= |ms| && id in rows
    ensures id in Swept(low, ms, rows, n)
    ensures Swept(low, ms, rows, n)[id]
            == if id in order && rows[id].status == Active && Archivable(rows[id], low) && rows[id] in ms[..n]
               then rows[id].(status := Archived) else rows[id]
  {
    if n > 0 {
      SweptRows(low, order, rows, ms, n - 1, id);
      ActiveOfHolds(order, rows, ms[n - 1]);
      assert ms[..n] == ms[..n - 1] + [ms[n - 1]];
      if ms[n - 1].id == id {
        ActiveIsListing(order, rows);
        assert rows[id] !in ms[..n - 1];
      }
    }
  }

  lemma SweptRow(low: real, order: seq<string>, rows: Rows, id: string)
    requires Table(order, rows)
    ensures var kept := ActiveOf(order, rows); var after := Swept(low, kept, rows, |kept|);
            (id in after <==> id in rows) &&
            (id in rows ==>
               after[id] == if id in order && rows[id].status == Active && Archivable(rows[id], low)
                            then rows[id].(status := Archived) else rows[id])
  {
    var kept := ActiveOf(order, rows);
    SweptKeys(low, kept, rows, |kept|);
    if id in rows {
      SweptRows(low, order, rows, kept, |kept|, id);
      ActiveOfHolds(order, rows, rows[id]);
      assert kept[..|kept|] == kept;
    }
  }

  lemma {:induction false} SweptKeys(low: real, ms: seq<Memory>, rows: Rows, n: nat)
    requires n <= |ms|
    ensures Swept(low, ms, rows, n).Keys == rows.Keys
  {
    if n > 0 {
      SweptKeys(low, ms, rows, n - 1);
    }
  }

  lemma AfterKeepsId(t: Rules, ms: seq<Memory>, i: nat, n: nat)
    requires i < |ms| && n <= |ms|
    ensures MemoryAfter(t, ms, i, n).id == ms[i].id
  {
    AbsorbedKeeps(t, ms, i, n);
  }

  lemma MergedTable(t: Rules, order: seq<string>, before: Rows)
    requires Table(order, before)
    ensures var ms := ActiveOf(order, before); Table(order, PassOver(t, ms, before, |ms|).rows)
  {
    var ms := ActiveOf(order, before);
    var rows := PassOver(t, ms, before, |ms|).rows;
    forall id | id in order ensures id in rows && rows[id].id == id {
      PassTable(t, order, before, id);
      if before[id].status == Active {
        ActiveOfHolds(order, before, before[id]);
        var i :| 0 <= i < |ms| && ms[i] == before[id];
        AfterKeepsId(t, ms, i, |ms|);
      }
    }
  }

  function Result(t: Rules, low: real, order: seq<string>, before: Rows): Rows
    requires Table(order, before)
  {
    var ms := ActiveOf(order, before);
    var rows := PassOver(t, ms, before, |ms|).rows;
    MergedTable(t, order, before);
    var kept := ActiveOf(order, rows);
    Swept(low, kept, rows, |kept|)
  }

  lemma ResultRow(t: Rules, low: real, order: seq<string>, before: Rows, i: nat)
    requires Table(order, before) && i < |ActiveOf(order, before)|
    ensures var ms := ActiveOf(order, before); var after := Result(t, low, order, before);
            ms[i].id in after && after[ms[i].id] == Final(t, low, ms, i)
  {
    var ms := ActiveOf(order, before);
    var id := ms[i].id;
    ActiveOfHolds(order, before, ms[i]);
    PassTable(t, order, before, id);
    MergedTable(t, order, before);
    SweptRow(low, order, PassOver(t, ms, before, |ms|).rows, id);
  }

  lemma ResultOther(t: Rules, low: real, order: seq<string>, before: Rows, id: string)
    requires Table(order, before)
    ensures var after := Result(t, low, order, before);
            (id in after <==> id in before) &&
            (id in before && (id in order ==> before[id].status != Active) ==> after[id] == before[id])
  {
    var ms := ActiveOf(order, before);
    PassTable(t, order, before, id);
    MergedTable(t, order, before);
    SweptRow(low, order, PassOver(t, ms, before, |ms|).rows, id);
  }

  // Both passes together do what the groups say.
  lemma ResultIsConsolidated(t: Rules, low: real, order: seq<string>, before: Rows)
    requires Table(order, before)
    ensures Consolidated(t, low, order, before, Result(t, low, order, before))
  {
    var ms := ActiveOf(order, before);
    var after := Result(t, low, order, before);
    forall id ensures (id in after <==> id in before) &&
                      (id in before && (id in order ==> before[id].status != Active) ==> after[id] == before[id])
    {
      ResultOther(t, low, order, before, id);
    }
    forall i | 0 <= i < |ms| ensures ms[i].id in after && after[ms[i].id] == Final(t, low, ms, i) {
      ResultRow(t, low, order, before, i);
    }
    forall id | id in order ensures id in after && after[id].id == id {
      if before[id].status == Active {
        ActiveOfHolds(order, before, before[id]);
        var i :| 0 <= i < |ms| && ms[i] == before[id];
        AfterKeepsId(t, ms, i, |ms|);
        assert after[ms[i].id] == Final(t, low, ms, i);
      }
    }
  }

  lemma {:induction false} DuplicateIdsHold(t: Rules, ms: seq<Memory>, n: nat, id: string)
    requires n <= |ms|
    ensures id in DuplicateIds(t, ms, n) <==> exists i: nat :: i < n && !First(t, ms, i) && ms[i].id == id
  {
    if n > 0 {
      DuplicateIdsHold(t, ms, n - 1, id);
    }
  }

  lemma {:induction false} SweptIdsHold(low: real, ms: seq<Memory>, n: nat, id: string)
    requires n <= |ms|
    ensures id in SweptIds(low, ms, n) <==> exists i :: 0 <= i < n && Archivable(ms[i], low) && ms[i].id == id
  {
    if n > 0 {
      SweptIdsHold(low, ms, n - 1, id);
    }
  }

  lemma SupersededIds(t: Rules, low: real, order: seq<string>, before: Rows, id: string)
    requires Table(order, before)
    ensures var ms := ActiveOf(order, before); var after := Result(t, low, order, before);
            id in after <==> id in before
    ensures var ms := ActiveOf(order, before); var after := Result(t, low, order, before);
            id in DuplicateIds(t, ms, |ms|) <==>
            id in order && before[id].status == Active && id in after && after[id].status == Superseded
  {
    var ms := ActiveOf(order, before);
    ResultOther(t, low, order, before, id);
    DuplicateIdsHold(t, ms, |ms|, id);
    ActiveIsListing(order, before);
    if i: nat :| i < |ms| && ms[i].id == id {
      ActiveOfHolds(order, before, ms[i]);
      ResultRow(t, low, order, before, i);
      FinalSplits(t, low, ms, i);
      assert forall j: nat :: j < |ms| && ms[j].id == id ==> j == i;
    } else if id in order {
      ActiveOfHolds(order, before, before[id]);
    }
  }

  lemma ArchivedIds(t: Rules, low: real, order: seq<string>, before: Rows, id: string)
    requires Table(order, before)
    ensures var ms := ActiveOf(order, before); var merged := PassOver(t, ms, before, |ms|).rows;
            var after := Result(t, low, order, before);
            Table(order, merged) &&
            (id in SweptIds(low, ActiveOf(order, merged), |ActiveOf(order, merged)|) <==>
             id in order && before[id].status == Active && id in after && after[id].status == Archived)
  {
    var ms := ActiveOf(order, before);
    var merged := PassOver(t, ms, before, |ms|).rows;
    MergedTable(t, order, before);
    var kept := ActiveOf(order, merged);
    SweptIdsHold(low, kept, |kept|, id);
    ResultOther(t, low, order, before, id);
    PassTable(t, order, before, id);
    SweptRow(low, order, merged, id);
    if id in order {
      ActiveOfHolds(order, before, before[id]);
      ActiveOfHolds(order, merged, merged[id]);
    }
    forall m | m in kept && m.id == id ensures id in order && m == merged[id] {
      ActiveOfHolds(order, merged, m);
    }
    if i: nat :| i < |ms| && ms[i].id == id {
      ActiveOfHolds(order, before, ms[i]);
      AbsorbedKeeps(t, ms, i, |ms|);
    }
  }

  class MemoryStore {
    const rules: Rules
    const order: seq<string>  // the ids, newest memory first
    var rows: Rows

    constructor (rules: Rules, order: seq<string>, rows: Rows)
      requires Table(order, rows)
      ensures this.rules == rules && this.order == order && this.rows == rows
    {
      this.rules, this.order, this.rows := rules, order, rows;
    }

    method SetStatus(id: string, status: Status)
      modifies this
      ensures rows == Mark(old(rows), id, status)
    {
      if id in rows {
        rows := rows[id := rows[id].(status := status)];
      }
    }

    // The row of a memory already stored is replaced.
    method StoreMemory(m: Memory) returns (stored: Memory)
      modifies this
      ensures stored == m.(words := rules.redact(m.words))
      ensures rows == old(rows)[m.id := stored]
    {
      stored := m.(words := rules.redact(m.words));
      rows := rows[m.id := stored];
    }

    method MergeDuplicates() returns (consolidated: seq<string>)
      requires Table(order, rows)
      modifies this
      ensures var ms := ActiveOf(order, old(rows));
              Pass(rows, PassOver(rules, ms, old(rows), |ms|).survivors, consolidated)
              == PassOver(rules, ms, old(rows), |ms|)
    {
      var memories := ActiveOf(order, rows);
      var survivors: map<Key, Memory> := map[];
      consolidated := [];
      var n := 0;
      while n < |memories|
        invariant n <= |memories|
        invariant Pass(rows, survivors, consolidated) == PassOver(rules, memories, old(rows), n)
      {
        var memory := memories[n];
        var key := KeyOf(rules, memory);
        if key !in survivors {
          survivors := survivors[key := memory];
        } else {
          var keeper := survivors[key];
          keeper := keeper.(
            importance := if memory.importance > keeper.importance then memory.importance else keeper.importance,
            confidence := if keeper.confidence == High || memory.confidence == High then High else keeper.confidence,
            provenance := Dedup(keeper.provenance + memory.provenance + [memory.id]));
          keeper := StoreMemory(keeper);
          survivors := survivors[key := keeper];
          SetStatus(memory.id, Superseded);
          consolidated := consolidated + [memory.id];
        }
        n := n + 1;
      }
    }

    method ArchiveUnimportant(low: real) returns (archived: seq<string>)
      requires Table(order, rows)
      modifies this
      ensures var kept := ActiveOf(order, old(rows));
              rows == Swept(low, kept, old(rows), |kept|) && archived == SweptIds(low, kept, |kept|)
    {
      var memories := ActiveOf(order, rows);
      archived := [];
      var n := 0;
      while n < |memories|
        invariant n <= |memories|
        invariant rows == Swept(low, memories, old(rows), n)
        invariant archived == SweptIds(low, memories, n)
      {
        if Archivable(memories[n], low) {
          SetStatus(memories[n].id, Archived);
          archived := archived + [memories[n].id];
        }
        n := n + 1;
      }
    }

    method Consolidate(low: real) returns (consolidated: seq<string>, archived: seq<string>)
      requires Table(order, rows)
      modifies this
      ensures Consolidated(rules, low, order, old(rows), rows)
      ensures forall id :: id in consolidated <==>
                id in order && old(rows)[id].status == Active && rows[id].status == Superseded
      ensures forall id :: id in archived <==>
                id in order && old(rows)[id].status == Active && rows[id].status == Archived
    {
      ghost var ms := ActiveOf(order, rows);
      MergedTable(rules, order, rows);
      consolidated := MergeDuplicates();
      archived := ArchiveUnimportant(low);
      ResultIsConsolidated(rules, low, order, old(rows));
      PassNames(rules, ms, old(rows), |ms|);
      forall id ensures id in consolidated <==>
                        id in order && old(rows)[id].status == Active && rows[id].status == Superseded {
        SupersededIds(rules, low, order, old(rows), id);
      }
      forall id ensures id in archived <==>
                        id in order && old(rows)[id].status == Active && rows[id].status == Archived {
        ArchivedIds(rules, low, order, old(rows), id);
      }
    }
  }
}

// The memory repository over whole runs: what is stored, marked and consolidated.
module ConsolidationRuns {
  import Text
  import opened Consolidation
  import opened ConsolidationStore

  // ------------------------------------------------------------------
  // Runs of the repository
  // ------------------------------------------------------------------

  // The ids, newest memory first, and their rows.
  datatype Database = Database(order: seq<string>, rows: Rows)

  datatype Event =
    | StoreMemory(m: Memory, at: nat)  // a new memory is the at-th newest
    | SetStatus(id: string, status: Status)
    | UpdateConfidence(id: string, confidence: Confidence)
    | UpdateOutcome(id: string, outcome: string)  // feedback: not redacted as a whole
    | Consolidate(low: real)

  function Inserted(order: seq<string>, at: nat, id: string): seq<string> {
    if id in order then order else if at <= |order| then order[..at] + [id] + order[at..] else order + [id]
  }

  function Rated(rows: Rows, id: string, confidence: Confidence): Rows {
    if id in rows then rows[id := rows[id].(confidence := confidence)] else rows
  }

  function Ended(rows: Rows, id: string, outcome: string): Rows {
    if id in rows then rows[id := rows[id].(words := rows[id].words.(outcome := outcome))] else rows
  }

  function Next(t: Rules, d: Database, e: Event): Database
    requires Table(d.order, d.rows)
  {
    match e
    case StoreMemory(m, at) =>
      Database(Inserted(d.order, at, m.id), d.rows[m.id := m.(words := t.redact(m.words))])
    case SetStatus(id, status) => Database(d.order, Mark(d.rows, id, status))
    case UpdateConfidence(id, confidence) => Database(d.order, Rated(d.rows, id, confidence))
    case UpdateOutcome(id, outcome) => Database(d.order, Ended(d.rows, id, outcome))
    case Consolidate(low) => Database(d.order, Result(t, low, d.order, d.rows))
  }

  function Run(t: Rules, events: seq<Event>): (d: Database)
    ensures Table(d.order, d.rows)
  {
    if events == [] then Database([], map[])
    else
      var d := Run(t, events[..|events| - 1]);
      NextIsTable(t, d, events[|events| - 1]);
      Next(t, d, events[|events| - 1])
  }

  lemma NextIsTable(t: Rules, d: Database, e: Event)
    requires Table(d.order, d.rows)
    ensures Table(Next(t, d, e).order, Next(t, d, e).rows)
  {
    match e
    case StoreMemory(m, at) =>
      forall x | x in Inserted(d.order, at, m.id) ensures x == m.id || x in d.order {
      }
    case SetStatus(_, _) =>
    case UpdateConfidence(_, _) =>
    case UpdateOutcome(_, _) =>
    case Consolidate(low) => ResultIsConsolidated(t, low, d.order, d.rows);
  }

  // The words without the outcome, which feedback writes past the redaction.
  function Lasting(w: Words): Words { w.(outcome := "") }

  // Every stored title, content and source is what redaction leaves of it.
  predicate Redacted(t: Rules, m: Memory) { Lasting(t.redact(m.words)) == Lasting(m.words) }

  predicate RowsRedacted(t: Rules, rows: Rows) { forall id <- rows :: Redacted(t, rows[id]) }

  ghost predicate RedactsOnce(t: Rules) { forall w: Words :: t.redact(t.redact(w)) == t.redact(w) }

  // The outcome has no part in the key, nor in the redaction of the other words.
  ghost predicate OutcomeIsApart(t: Rules) {
    forall kind, environment, component, w: Words, x: Words {:trigger t.key(kind, environment, component, w), Lasting(x)} ::
      Lasting(w) == Lasting(x) ==>
        t.key(kind, environment, component, w) == t.key(kind, environment, component, x) &&
        Lasting(t.redact(w)) == Lasting(t.redact(x))
  }

  lemma Apart(t: Rules, m: Memory, w: Words, x: Words)
    requires OutcomeIsApart(t) && Lasting(w) == Lasting(x)
    ensures KeyOf(t, m.(words := w)) == KeyOf(t, m.(words := x)) && Lasting(t.redact(w)) == Lasting(t.redact(x))
  {
    assert t.key(m.kind, m.environment, m.component, w) == t.key(m.kind, m.environment, m.component, x);
  }

  // The system's rules redact once when the removal of secrets does.
  lemma TextRulesRedactOnce(lower: string -> string, redact: string -> string)
    requires forall s: string :: redact(redact(s)) == redact(s)
    ensures RedactsOnce(TextRules(lower, redact)) && OutcomeIsApart(TextRules(lower, redact))
  {
    var t := TextRules(lower, redact);
    forall w: Words ensures t.redact(t.redact(w)) == t.redact(w) {
      assert t.redact(w) == Words(redact(w.title), redact(w.content), redact(w.source), redact(w.outcome));
    }
    forall w: Words, x: Words | Lasting(w) == Lasting(x) ensures Lasting(t.redact(w)) == Lasting(t.redact(x)) {
      assert t.redact(w) == Words(redact(w.title), redact(w.content), redact(w.source), redact(w.outcome));
      assert t.redact(x) == Words(redact(x.title), redact(x.content), redact(x.source), redact(x.outcome));
      assert Lasting(w).title == Lasting(x).title && Lasting(w).content == Lasting(x).content;
      assert Lasting(w).source == Lasting(x).source;
    }
  }

  lemma {:induction false} KeeperStaysRedacted(t: Rules, ms: seq<Memory>, i: nat, n: nat)
    requires RedactsOnce(t) && i < |ms| && n <= |ms| && Redacted(t, ms[i])
    ensures Redacted(t, Absorbed(t, ms, i, n))
    decreases n
  {
    if n > i + 1 {
      KeeperStaysRedacted(t, ms, i, n - 1);
    }
  }

  lemma ConsolidatedIsRedacted(t: Rules, low: real, order: seq<string>, rows: Rows, id: string)
    requires RedactsOnce(t) && Table(order, rows) && RowsRedacted(t, rows) && id in Result(t, low, order, rows)
    ensures Redacted(t, Result(t, low, order, rows)[id])
  {
    ResultOther(t, low, order, rows, id);
    if id in order && rows[id].status == Active {
      var ms := ActiveOf(order, rows);
      ActiveOfHolds(order, rows, rows[id]);
      var i :| 0 <= i < |ms| && ms[i] == rows[id];
      ResultRow(t, low, order, rows, i);
      KeeperStaysRedacted(t, ms, i, |ms|);
    }
  }

  lemma {:induction false} RunIsRedacted(t: Rules, events: seq<Event>)
    requires RedactsOnce(t) && OutcomeIsApart(t)
    ensures RowsRedacted(t, Run(t, events).rows)
  {
    if events != [] {
      var before, e := events[..|events| - 1], events[|events| - 1];
      RunIsRedacted(t, before);
      var d := Run(t, before);
      forall id | id in Next(t, d, e).rows ensures Redacted(t, Next(t, d, e).rows[id]) {
        if e.Consolidate? {
          ConsolidatedIsRedacted(t, e.low, d.order, d.rows, id);
        } else if e.UpdateOutcome? && id in d.rows {
          Apart(t, d.rows[id], d.rows[id].words, Next(t, d, e).rows[id].words);
        }
      }
    }
  }

  // After any use of the repository, feedback included, a consolidation leaves no two
  // active memories with one key, and the next one would change nothing.
  lemma {:induction false} RunKeysDiffer(t: Rules, events: seq<Event>, low: real)
    requires RedactsOnce(t) && OutcomeIsApart(t)
    ensures var d := Run(t, events); var after := Result(t, low, d.order, d.rows);
            Table(d.order, after) && KeysDiffer(t, ActiveOf(d.order, after)) &&
            Result(t, low, d.order, after) == after
  {
    var d := Run(t, events);
    var ms := ActiveOf(d.order, d.rows);
    var after := Result(t, low, d.order, d.rows);
    RunIsRedacted(t, events);
    forall m | m in ms ensures KeyStays(t, m) {
      ActiveOfHolds(d.order, d.rows, m);
      Apart(t, m, t.redact(m.words), m.words);
    }
    RedactedKeptDiffer(t, low, ms);
    ResultIsConsolidated(t, low, d.order, d.rows);
    ActiveKeysDifferIff(t, low, d.order, d.rows, after);
    ResultIsConsolidated(t, low, d.order, after);
    SecondRunIff(t, low, d.order, d.rows, after, Result(t, low, d.order, after));
  }

  // ------------------------------------------------------------------
  // Text that was not redacted when it was stored
  // ------------------------------------------------------------------

  function HidePin(s: string): string { if s == "pin=1" then "pin=?" else s }

  function Note(id: string, content: string): Memory {
    Memory(id, Semantic, Words("note", content, "user", ""), "", "", Stated("Medium"), 2.0, Active, [])
  }

  lemma StripKeeps(s: string)
    requires s != [] && !Text.IsSpace(s[0]) && !Text.IsSpace(s[|s| - 1])
    ensures Text.Strip(s) == s
  {
    assert Text.LeadingSpaces(s) == 0;
    assert s[0..] == s;
    assert Text.StripRight(s) == s;
  }

  lemma JoinedKeys(t: Rules, low: real, ms: seq<Memory>)
    requires |ms| == 3 && forall i :: 0 <= i < 3 ==> ms[i].importance > low
    requires SameKey(t, ms, 0, 1) && !SameKey(t, ms, 2, 0) && !SameKey(t, ms, 2, 1) && !SameKey(t, ms, 0, 2)
    requires KeyOf(t, ms[0].(words := t.redact(ms[0].words))) == KeyOf(t, ms[2])
    ensures !KeptDiffer(t, low, ms)
  {
    assert HasTwin(t, ms, 0, 3) && !HasTwin(t, ms, 2, 3);
    KeeperIsGreatest(t, ms, 0, 3);
    KeeperIsGreatest(t, ms, 2, 3);
    assert InGroup(t, ms, 0, 3, 0) && InGroup(t, ms, 2, 3, 2);
    assert Kept(t, low, ms, 0) && Kept(t, low, ms, 2);
  }

  lemma NoteKey(t: Rules, id: string, content: string)
    requires t == TextRules(s => s, HidePin)
    requires content != [] && !Text.IsSpace(content[0]) && !Text.IsSpace(content[|content| - 1])
    ensures KeyOf(t, Note(id, content)).content == content
    ensures KeyOf(t, Note(id, content)) == KeyOf(t, Note("", content))
  {
    StripKeeps(content);
  }

  lemma NoteIsHidden(t: Rules, id: string)
    requires t == TextRules(s => s, HidePin)
    ensures Note(id, "pin=1").(words := t.redact(Note(id, "pin=1").words)) == Note(id, "pin=?")
    ensures t.redact(Note(id, "pin=?").words) == Note(id, "pin=?").words
    ensures t.redact(Note(id, "pin=1").words) == Note(id, "pin=?").words
  {
    assert "note"[0] != "pin=1"[0] && "user"[0] != "pin=1"[0] && "pin=?"[4] != "pin=1"[4] && |""| != |"pin=1"|;
    assert HidePin("note") == "note" && HidePin("user") == "user" && HidePin("") == "";
    assert HidePin("pin=1") == "pin=?" && HidePin("pin=?") == "pin=?";
    assert t.redact(Words("note", "pin=1", "user", "")) == Words("note", "pin=?", "user", "");
    assert t.redact(Words("note", "pin=?", "user", "")) == Words("note", "pin=?", "user", "");
  }

  lemma NotesDiffer(t: Rules, id: string, id': string)
    requires t == TextRules(s => s, HidePin)
    ensures KeyOf(t, Note(id, "pin=1")) == KeyOf(t, Note(id', "pin=1")) != KeyOf(t, Note(id', "pin=?"))
    ensures KeyOf(t, Note(id, "pin=?")) == KeyOf(t, Note(id', "pin=?"))
  {
    assert "pin=?"[4] != "pin=1"[4];
    NoteKey(t, id, "pin=1");
    NoteKey(t, id', "pin=1");
    NoteKey(t, id, "pin=?");
    NoteKey(t, id', "pin=?");
  }

  // Two notes with an unredacted secret and one without: storing the keeper of the two
  // again redacts it and gives it the key of the third, which stays active too.
  lemma RedactionCanJoinKeys(t: Rules, low: real, x: string, y: string, z: string)
    requires t == TextRules(s => s, HidePin) && low < 2.0 && x != y && y != z && x != z
    ensures var ms := [Note(x, "pin=1"), Note(y, "pin=1"), Note(z, "pin=?")];
            Listing(ms) && Idempotent(t, ms) && !KeptDiffer(t, low, ms)
  {
    var a, b, c := Note(x, "pin=1"), Note(y, "pin=1"), Note(z, "pin=?");
    NoteIsHidden(t, x);
    NoteIsHidden(t, y);
    NoteIsHidden(t, z);
    NotesDiffer(t, x, y);
    NotesDiffer(t, x, z);
    NotesDiffer(t, y, z);
    NotesJoin(t, low, a, b, c);
  }

  lemma NotesJoin(t: Rules, low: real, a: Memory, b: Memory, c: Memory)
    requires KeyOf(t, a) == KeyOf(t, b) != KeyOf(t, c)
    requires KeyOf(t, a.(words := t.redact(a.words))) == KeyOf(t, c)
    requires t.redact(t.redact(a.words)) == t.redact(a.words) && t.redact(t.redact(b.words)) == t.redact(b.words)
    requires t.redact(c.words) == c.words
    requires a.importance > low && b.importance > low && c.importance > low
    ensures Idempotent(t, [a, b, c]) && !KeptDiffer(t, low, [a, b, c])
  {
    JoinedKeys(t, low, [a, b, c]);
  }
}

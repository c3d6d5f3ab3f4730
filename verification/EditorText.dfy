// The editor's text operations: escapes, search with line numbers, and the
// replacement of a single match.
module EditorText {
  import opened Wrappers
  import Text

  // ------------------------------------------------------------------
  // Escapes
  // ------------------------------------------------------------------

  // The character a backslash and `c` stand for.
  function Escaped(c: char): Option<char> {
    if c == 'n' then Some('\n')
    else if c == 'r' then Some('\r')
    else if c == 't' then Some('\t')
    else if c == '\\' then Some('\\')
    else if c == '0' then Some('\0')
    else None
  }

  // The letter by which `c` has to be written after a backslash, if any.
  function Letter(c: char): Option<char> {
    if c == '\n' then Some('n')
    else if c == '\r' then Some('r')
    else if c == '\t' then Some('t')
    else if c == '\\' then Some('\\')
    else if c == '\0' then Some('0')
    else None
  }

  function Escape(s: string): string {
    if s == [] then []
    else (match Letter(s[0]) case Some(letter) => ['\\', letter] case None => [s[0]]) + Escape(s[1..])
  }

  function Unescaped(s: string): string {
    if s == [] then []
    else if s[0] == '\\' && |s| > 1 && Escaped(s[1]).Some? then [Escaped(s[1]).value] + Unescaped(s[2..])
    else [s[0]] + Unescaped(s[1..])
  }

  predicate EscapeAt(s: string, i: nat)
    requires i < |s|
  {
    s[i] == '\\' && i + 1 < |s| && Escaped(s[i + 1]).Some?
  }

  method Unescape(value: string) returns (out: string)
    ensures out == Unescaped(value)
  {
    out := [];
    var index := 0;
    while index < |value|
      invariant 0 <= index <= |value|
      invariant out + Unescaped(value[index..]) == Unescaped(value)
    {
      if value[index] == '\\' && index + 1 < |value| && Escaped(value[index + 1]).Some? {
        Regroup(out, [Escaped(value[index + 1]).value], Unescaped(value[index + 2..]));
        out := out + [Escaped(value[index + 1]).value];
        index := index + 2;
        continue;
      }
      Regroup(out, [value[index]], Unescaped(value[index + 1..]));
      out := out + [value[index]];
      index := index + 1;
    }
  }

  // Every text can be written with escapes, and is read back as it was.
  lemma {:induction false} UnescapeInvertsEscape(s: string)
    ensures Unescaped(Escape(s)) == s
  {
    if s != [] {
      UnescapeInvertsEscape(s[1..]);
      var rest := Escape(s[1..]);
      match Letter(s[0])
      case Some(letter) => assert (['\\', letter] + rest)[2..] == rest;
      case None => assert ([s[0]] + rest)[1..] == rest;
    }
  }

  // Unescaping leaves a text alone exactly when no backslash in it stands before
  // one of the five letters.
  predicate HasEscape(s: string) { exists i :: 0 <= i < |s| && EscapeAt(s, i) }

  lemma EscapeInTail(s: string)
    requires s != []
    ensures HasEscape(s) <==> EscapeAt(s, 0) || HasEscape(s[1..])
  {
    var rest := s[1..];
    if i :| 0 <= i < |rest| && EscapeAt(rest, i) {
      assert EscapeAt(s, i + 1);
    }
    if i :| 0 <= i < |s| && EscapeAt(s, i) {
      assert i > 0 ==> EscapeAt(rest, i - 1);
    }
  }

  lemma {:induction false} UnescapeKeepsIff(s: string)
    ensures |Unescaped(s)| <= |s|
    ensures Unescaped(s) == s <==> !HasEscape(s)
  {
    if s != [] {
      EscapeInTail(s);
      if EscapeAt(s, 0) {
        UnescapeKeepsIff(s[2..]);
      } else {
        UnescapeKeepsIff(s[1..]);
        assert s == [s[0]] + s[1..];
      }
    }
  }

  // ------------------------------------------------------------------
  // Search
  // ------------------------------------------------------------------

  // str.find(needle, start)
  function Find(text: string, needle: string, start: nat): Option<nat>
    decreases |text| - start
  {
    if start + |needle| > |text| then None
    else if Text.OccursAt(text, needle, start) then Some(start)
    else Find(text, needle, start + 1)
  }

  function Hits(text: string, needle: string): set<nat> {
    set q: nat | q <= |text| && Text.OccursAt(text, needle, q)
  }

  lemma {:induction false} FindIsFirst(text: string, needle: string, start: nat)
    ensures var r := Find(text, needle, start); var hits := Hits(text, needle);
            (r.Some? ==> start <= r.value && r.value in hits && r.value + |needle| <= |text|) &&
            forall q <- hits :: start <= q ==> r.Some? && r.value <= q
    decreases |text| - start
  {
    if start + |needle| <= |text| && !Text.OccursAt(text, needle, start) {
      FindIsFirst(text, needle, start + 1);
    }
  }

  // Where the search stops, from `start` on.
  function Positions(text: string, needle: string, start: nat): seq<nat>
    requires needle != []
    decreases |text| - start
  {
    FindIsFirst(text, needle, start);
    match Find(text, needle, start)
    case None => []
    case Some(index) => [index] + Positions(text, needle, index + |needle|)
  }

  function Newlines(s: string): nat {
    if s == [] then 0 else Newlines(s[..|s| - 1]) + (if s[|s| - 1] == '\n' then 1 else 0)
  }

  // The number, from 1, of the line that holds position `p`.
  function LineOf(text: string, p: nat): nat {
    Newlines(if p <= |text| then text[..p] else text) + 1
  }

  function LinesOf(text: string, ps: seq<nat>): (lines: seq<nat>)
    ensures |lines| == |ps|
  {
    if ps == [] then [] else [LineOf(text, ps[0])] + LinesOf(text, ps[1..])
  }

  lemma {:induction false} LinesAt(text: string, ps: seq<nat>, k: nat)
    requires k < |ps|
    ensures LinesOf(text, ps)[k] == LineOf(text, ps[k])
  {
    if k > 0 {
      LinesAt(text, ps[1..], k - 1);
    }
  }

  lemma MoveOne(a: seq<nat>, x: nat, b: seq<nat>)
    ensures a + ([x] + b) == (a + [x]) + b
  {}

  // One step of the search loop.
  lemma {:induction false} SearchStep(lines: seq<nat>, text: string, needle: string, start: nat, index: nat, next: nat)
    requires needle != [] && Find(text, needle, start) == Some(index) && next == index + |needle|
    ensures lines + LinesOf(text, Positions(text, needle, start))
         == (lines + [LineOf(text, index)]) + LinesOf(text, Positions(text, needle, next))
  {
    MoveOne(lines, LineOf(text, index), LinesOf(text, Positions(text, needle, next)));
  }

  lemma NextIsAhead(text: string, needle: string, start: nat, index: nat)
    requires needle != [] && Find(text, needle, start) == Some(index)
    ensures start < index + |needle| <= |text|
  {
    FindIsFirst(text, needle, start);
  }

  method FindMatchLines(text: string, needle: string) returns (lines: seq<nat>)
    requires needle != []
    ensures lines == LinesOf(text, Positions(text, needle, 0))
  {
    lines := [];
    var start := 0;
    while true
      invariant 0 <= start <= |text|
      invariant lines + LinesOf(text, Positions(text, needle, start)) == LinesOf(text, Positions(text, needle, 0))
      decreases |text| - start
    {
      var found := Find(text, needle, start);
      if found.None? {
        break;
      }
      var next := found.value + |needle|;
      SearchStep(lines, text, needle, start, found.value, next);
      NextIsAhead(text, needle, start, found.value);
      lines := lines + [LineOf(text, found.value)];
      start := next;
    }
  }

  // A list of matches that do not overlap, such that every occurrence overlaps
  // the match that starts at or before it: the leftmost choice.
  predicate Apart(ps: seq<nat>, n: nat) { forall k, l :: 0 <= k < l < |ps| ==> ps[k] + n <= ps[l] }

  predicate Covers(ps: seq<nat>, n: nat, q: nat) { exists k :: 0 <= k < |ps| && ps[k] <= q < ps[k] + n }

  predicate HitsFrom(hits: set<nat>, n: nat, start: nat, ps: seq<nat>) {
    (forall k :: 0 <= k < |ps| ==> start <= ps[k] && ps[k] in hits) && Apart(ps, n)
  }

  predicate Leftmost(hits: set<nat>, n: nat, start: nat, ps: seq<nat>) {
    HitsFrom(hits, n, start, ps) &&
    (forall q {:trigger Covers(ps, n, q)} :: q in hits && start <= q ==> Covers(ps, n, q))
  }

  lemma HitsFromPlus(hits: set<nat>, n: nat, start: nat, p: nat, rest: seq<nat>)
    requires p in hits && start <= p && HitsFrom(hits, n, p + n, rest)
    ensures HitsFrom(hits, n, start, [p] + rest)
  {}

  lemma {:induction false} PositionsAreHits(text: string, needle: string, start: nat)
    requires needle != []
    ensures HitsFrom(Hits(text, needle), |needle|, start, Positions(text, needle, start))
    decreases |text| - start
  {
    FindIsFirst(text, needle, start);
    var found := Find(text, needle, start);
    if found.Some? {
      var next := found.value + |needle|;
      PositionsAreHits(text, needle, next);
      HitsFromPlus(Hits(text, needle), |needle|, start, found.value, Positions(text, needle, next));
    }
  }

  lemma {:induction false} CoversPlus(p: nat, rest: seq<nat>, n: nat, q: nat)
    requires p <= q < p + n || Covers(rest, n, q)
    ensures Covers([p] + rest, n, q)
  {
    var ps := [p] + rest;
    assert ps[0] == p;
    if k :| 0 <= k < |rest| && rest[k] <= q < rest[k] + n {
      assert ps[k + 1] == rest[k];
    }
  }

  lemma {:induction false} PositionsCover(text: string, needle: string, start: nat, q: nat)
    requires needle != [] && start <= q && q in Hits(text, needle)
    ensures Covers(Positions(text, needle, start), |needle|, q)
    decreases |text| - start
  {
    FindIsFirst(text, needle, start);
    var index := Find(text, needle, start).value;
    var next := index + |needle|;
    if next <= q {
      PositionsCover(text, needle, next, q);
    }
    CoversPlus(index, Positions(text, needle, next), |needle|, q);
  }

  // The search finds the leftmost matches, ...
  lemma PositionsAreLeftmost(text: string, needle: string, start: nat)
    requires needle != []
    ensures Leftmost(Hits(text, needle), |needle|, start, Positions(text, needle, start))
  {
    PositionsAreHits(text, needle, start);
    forall q | q in Hits(text, needle) && start <= q ensures Covers(Positions(text, needle, start), |needle|, q) {
      PositionsCover(text, needle, start, q);
    }
  }

  // ... and there is no other such list: each match is the first occurrence at
  // or after the end of the one before.
  function EndBefore(n: nat, start: nat, ps: seq<nat>, k: nat): nat
    requires k <= |ps|
  {
    if k == 0 then start else ps[k - 1] + n
  }

  lemma {:induction false} NextIsFirst(hits: set<nat>, n: nat, start: nat, ps: seq<nat>, k: nat, q: nat)
    requires Leftmost(hits, n, start, ps) && k <= |ps|
    requires q in hits && start <= q && EndBefore(n, start, ps, k) <= q
    ensures k < |ps| && ps[k] <= q
  {
    assert Covers(ps, n, q);
    assert forall i :: 0 <= i < k - 1 ==> ps[i] + n <= ps[k - 1];
    var j :| 0 <= j < |ps| && ps[j] <= q < ps[j] + n;
    if k < j {
      assert ps[k] + n <= ps[j];
    }
  }

  lemma {:induction false} SameSoFar(hits: set<nat>, n: nat, start: nat, ps: seq<nat>, qs: seq<nat>, k: nat)
    requires n > 0 && Leftmost(hits, n, start, ps) && Leftmost(hits, n, start, qs) && k <= |ps|
    ensures k <= |qs| && ps[..k] == qs[..k]
  {
    if k > 0 {
      SameSoFar(hits, n, start, ps, qs, k - 1);
      assert k > 1 ==> ps[..k - 1][k - 2] == qs[..k - 1][k - 2] && ps[k - 2] + n <= ps[k - 1];
      NextIsFirst(hits, n, start, qs, k - 1, ps[k - 1]);
      assert k > 1 ==> qs[k - 2] + n <= qs[k - 1];
      NextIsFirst(hits, n, start, ps, k - 1, qs[k - 1]);
      assert ps[..k] == ps[..k - 1] + [ps[k - 1]] && qs[..k] == qs[..k - 1] + [qs[k - 1]];
    }
  }

  lemma LeftmostIsUnique(hits: set<nat>, n: nat, start: nat, ps: seq<nat>, qs: seq<nat>)
    requires n > 0 && Leftmost(hits, n, start, ps) && Leftmost(hits, n, start, qs)
    ensures ps == qs
  {
    SameSoFar(hits, n, start, ps, qs, |ps|);
    SameSoFar(hits, n, start, qs, ps, |qs|);
    assert ps == ps[..|ps|] && qs == qs[..|qs|];
  }

  // ------------------------------------------------------------------
  // Replacing the only match
  // ------------------------------------------------------------------

  // str.replace(needle, value, 1)
  function ReplaceFirst(text: string, needle: string, value: string): string {
    match Find(text, needle, 0)
    case None => text
    case Some(p) =>
      FindIsFirst(text, needle, 0);
      text[..p] + value + text[p + |needle|..]
  }

  // `p` is an occurrence that every other one overlaps from the right.
  predicate OnlyMatch(text: string, needle: string, p: nat) {
    p in Hits(text, needle) && forall q <- Hits(text, needle) :: p <= q < p + |needle|
  }

  // The search reports one match exactly when there is such an occurrence, ...
  lemma OneMatchIff(text: string, needle: string)
    requires needle != []
    ensures |Positions(text, needle, 0)| == 1 <==>
            exists p <- Hits(text, needle) :: OnlyMatch(text, needle, p)
  {
    var ps := Positions(text, needle, 0);
    var hits := Hits(text, needle);
    PositionsAreLeftmost(text, needle, 0);
    if |ps| == 1 {
      assert ps[0] in ps;
      forall q | q in hits ensures ps[0] <= q < ps[0] + |needle| {
        assert Covers(ps, |needle|, q);
      }
      assert OnlyMatch(text, needle, ps[0]);
    }
    if p: nat :| p in hits && OnlyMatch(text, needle, p) {
      forall q | q in hits ensures Covers([p], |needle|, q) {
        assert [p][0] <= q < [p][0] + |needle|;
      }
      LeftmostIsUnique(hits, |needle|, 0, [p], ps);
    }
  }

  // ... and then exactly that occurrence gives way to the new text.
  lemma OnlyMatchIsReplaced(text: string, needle: string, value: string, p: nat)
    requires needle != [] && OnlyMatch(text, needle, p)
    ensures p + |needle| <= |text|
    ensures ReplaceFirst(text, needle, value) == text[..p] + value + text[p + |needle|..]
    ensures text == text[..p] + needle + text[p + |needle|..]
  {
    assert Find(text, needle, 0) == Some(p) && p + |needle| <= |text| by {
      FindIsFirst(text, needle, 0);
    }
  }

  // Overlapping occurrences count as one: such a text is not refused although
  // the needle stands in it twice.
  lemma OverlapIsNotNoticed()
    ensures Positions("aaa", "aa", 0) == [0] && Hits("aaa", "aa") == {0, 1}
  {
  }
}

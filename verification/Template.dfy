// Command templates: a plain text with `{name}` slots (app/tool_factory/validation.py,
// _PLACEHOLDER_RE). A template is read as a list of literal characters and holes; filling
// every hole at once is the reference the step-by-step substitution is compared with.
module Template {
  import opened Wrappers
  import opened Text

  datatype Token = Literal(c: char) | Hole(name: string)

  predicate IsNameStart(c: char) {
    'a' <= c <= 'z' || c == '_'
  }

  predicate IsNameChar(c: char) {
    IsNameStart(c) || '0' <= c <= '9'
  }

  predicate IsName(s: string) {
    && s != []
    && IsNameStart(s[0])
    && forall i | 0 <= i < |s| :: IsNameChar(s[i])
  }

  function NameLength(s: string): (n: nat)
    ensures n <= |s|
    ensures forall i | 0 <= i < n :: IsNameChar(s[i])
    ensures n < |s| ==> !IsNameChar(s[n])
  {
    if s == [] || !IsNameChar(s[0]) then 0 else 1 + NameLength(s[1..])
  }

  function Slot(name: string): string {
    "{" + name + "}"
  }

  // The match of the placeholder pattern at the very start of s, if there is one.
  function HoleAt(s: string): (h: Option<string>)
    ensures h.Some? ==> IsName(h.value) && Slot(h.value) <= s
  {
    if s == [] || s[0] != '{' then None
    else
      var n := NameLength(s[1..]);
      if n > 0 && IsNameStart(s[1]) && 1 + n < |s| && s[1 + n] == '}' then
        assert Slot(s[1..1 + n]) == s[..n + 2];
        Some(s[1..1 + n])
      else None
  }

  // The leftmost non-overlapping matches, as re.findall and re.sub scan for them.
  function Tokenize(s: string): (ts: seq<Token>)
    ensures WellFormed(ts)
    decreases |s|
  {
    if s == [] then []
    else match HoleAt(s)
      case Some(name) => [Hole(name)] + Tokenize(s[|name| + 2..])
      case None => [Literal(s[0])] + Tokenize(s[1..])
  }

  predicate WellFormed(ts: seq<Token>) {
    forall t | t in ts && t.Hole? :: IsName(t.name)
  }

  // No literal character of the template is a brace.
  predicate BraceFree(ts: seq<Token>) {
    forall t | t in ts && t.Literal? :: t.c != '{' && t.c != '}'
  }

  function Holes(ts: seq<Token>): (names: seq<string>)
    ensures forall n :: n in names <==> Hole(n) in ts
  {
    if ts == [] then []
    else (if ts[0].Hole? then [ts[0].name] else []) + Holes(ts[1..])
  }

  function Show(t: Token, values: map<string, string>): string {
    match t
    case Literal(c) => [c]
    case Hole(name) => if name in values then values[name] else Slot(name)
  }

  // Simultaneous substitution; holes without a value are written back.
  function Fill(ts: seq<Token>, values: map<string, string>): string {
    if ts == [] then [] else Show(ts[0], values) + Fill(ts[1..], values)
  }

  // The template with every slot masked, as the metacharacter scan sees it.
  function Masked(ts: seq<Token>): string {
    if ts == [] then []
    else (if ts[0].Hole? then "PH" else [ts[0].c]) + Masked(ts[1..])
  }

  predicate NoBraces(s: string) {
    '{' !in s && '}' !in s
  }

  predicate NoBraceValues(values: map<string, string>) {
    forall n | n in values :: NoBraces(values[n])
  }

  // Replace every slot of the listed names, one after the other.
  function ReplaceSlots(command: string, names: seq<string>, values: map<string, string>): string
    requires forall n | n in names :: n in values
    decreases |names|
  {
    if names == [] then command
    else ReplaceSlots(Replace(command, Slot(names[0]), values[names[0]]), names[1..], values)
  }

  lemma {:induction false} FillNothing(s: string)
    ensures Fill(Tokenize(s), map[]) == s
    decreases |s|
  {
    if s != [] {
      match HoleAt(s) {
        case Some(name) =>
          FillNothing(s[|name| + 2..]);
          assert Tokenize(s)[1..] == Tokenize(s[|name| + 2..]);
          assert s[..|name| + 2] == Slot(name);
        case None =>
          FillNothing(s[1..]);
          assert Tokenize(s)[1..] == Tokenize(s[1..]);
      }
    }
  }

  lemma {:induction false} FillAppend(xs: seq<Token>, ys: seq<Token>, values: map<string, string>)
    ensures Fill(xs + ys, values) == Fill(xs, values) + Fill(ys, values)
  {
    if xs == [] {
      assert xs + ys == ys;
    } else {
      assert (xs + ys)[1..] == xs[1..] + ys;
      FillAppend(xs[1..], ys, values);
    }
  }

  // A slot is only found where a slot of that very name stands.
  lemma SlotFoundBySlot(name: string, p: string, rest: string)
    requires IsName(name) && IsName(p) && Slot(p) <= Slot(name) + rest
    ensures name == p
  {
    var s := Slot(name) + rest;
    assert forall i | 0 <= i < |name| :: s[i + 1] == name[i] && IsNameChar(name[i]);
    assert forall i | 0 <= i < |p| :: s[i + 1] == p[i] && IsNameChar(p[i]);
    assert s[|name| + 1] == '}' && s[|p| + 1] == '}';
    assert |name| == |p|;
  }

  lemma ReplaceOnSlot(name: string, rest: string, p: string, v: string)
    requires IsName(name) && IsName(p)
    ensures Replace(Slot(name) + rest, Slot(p), v)
         == (if name == p then v else Slot(name)) + Replace(rest, Slot(p), v)
  {
    var s := Slot(name) + rest;
    if name == p {
      assert s[|Slot(p)|..] == rest;
    } else {
      if Slot(p) <= s {
        SlotFoundBySlot(name, p, rest);
      }
      var tail := name + "}";
      assert s[1..] == tail + rest && s[0] == '{';
      assert forall i | 0 <= i < |name| :: IsNameChar(name[i]);
      ReplaceSkips(tail, rest, Slot(p), v);
      assert ['{'] + (tail + Replace(rest, Slot(p), v)) == Slot(name) + Replace(rest, Slot(p), v);
    }
  }

  lemma ReplaceOnToken(t: Token, rest: string, values: map<string, string>, p: string, v: string)
    requires t.Hole? ==> IsName(t.name)
    requires t.Literal? ==> t.c != '{' && t.c != '}'
    requires NoBraceValues(values) && IsName(p) && (p in values ==> values[p] == v)
    ensures Replace(Show(t, values) + rest, Slot(p), v) == Show(t, values[p := v]) + Replace(rest, Slot(p), v)
  {
    if t.Hole? && t.name !in values {
      ReplaceOnSlot(t.name, rest, p, v);
    } else {
      ReplaceSkips(Show(t, values), rest, Slot(p), v);
    }
  }

  // The heart of the argument: with brace-free literals and values, one str.replace call
  // fills exactly the holes of one name.
  lemma {:induction false} ReplaceFillsOneName(ts: seq<Token>, values: map<string, string>, p: string, v: string)
    requires WellFormed(ts) && BraceFree(ts) && NoBraceValues(values)
    requires IsName(p) && (p in values ==> values[p] == v)
    ensures Replace(Fill(ts, values), Slot(p), v) == Fill(ts, values[p := v])
  {
    if ts != [] {
      ReplaceFillsOneName(ts[1..], values, p, v);
      assert ts[0] in ts;
      ReplaceOnToken(ts[0], Fill(ts[1..], values), values, p, v);
    }
  }

  // Replacing the slots one name after the other, with repetitions in any order, is the
  // simultaneous substitution of all of them.
  lemma {:induction false} ReplacingIsFilling(
      ts: seq<Token>, names: seq<string>, values: map<string, string>, done: map<string, string>)
    requires WellFormed(ts) && BraceFree(ts) && NoBraceValues(values)
    requires forall n | n in names :: n in values && IsName(n)
    requires forall n | n in done :: n in values && done[n] == values[n]
    requires forall n | n in Holes(ts) :: n in names || n in done
    ensures ReplaceSlots(Fill(ts, done), names, values) == Fill(ts, values)
  {
    if names == [] {
      FillAgrees(ts, done, values);
    } else {
      var p := names[0];
      ReplaceFillsOneName(ts, done, p, values[p]);
      ReplacingIsFilling(ts, names[1..], values, done[p := values[p]]);
    }
  }

  lemma {:induction false} FillAgrees(ts: seq<Token>, f: map<string, string>, g: map<string, string>)
    requires forall n | n in Holes(ts) :: n in f && n in g && f[n] == g[n]
    ensures Fill(ts, f) == Fill(ts, g)
  {
    if ts != [] {
      assert forall n | n in Holes(ts[1..]) :: n in Holes(ts);
      assert ts[0].Hole? ==> ts[0].name in Holes(ts);
      FillAgrees(ts[1..], f, g);
    }
  }

  lemma {:induction false} TokenizeSlot(name: string, rest: string)
    requires IsName(name)
    ensures Tokenize(Slot(name) + rest) == [Hole(name)] + Tokenize(rest)
  {
    var s := Slot(name) + rest;
    assert forall i | 0 <= i < |name| :: s[1..][i] == name[i];
    assert s[1..][|name|] == '}' && !IsNameChar('}');
    assert NameLength(s[1..]) == |name|;
    assert s[1] == name[0] && s[1..1 + |name|] == name;
    assert s[|name| + 2..] == rest;
  }

  lemma {:induction false} TokenizeLiteral(c: char, rest: string)
    requires c != '{' || (rest != [] && !IsNameStart(rest[0]))
    ensures Tokenize([c] + rest) == [Literal(c)] + Tokenize(rest)
  {
    var s := [c] + rest;
    assert s[0] == c && s[1..] == rest;
    assert HoleAt(s).None?;
  }

  lemma {:induction false} TokensAround(name: string, slot: string, t: string)
    requires IsName(name) && slot == Slot(name) && t == ['{'] + (slot + (['}'] + slot))
    ensures Tokenize(t) == [Literal('{'), Hole(name), Literal('}'), Hole(name)]
  {
    var closed := ['}'] + slot;
    assert slot + [] == slot;
    TokenizeSlot(name, []);
    TokenizeLiteral('}', slot);
    TokenizeSlot(name, closed);
    TokenizeLiteral('{', slot + closed);
    assert [Hole(name)] + [] == [Hole(name)];
    assert Tokenize(closed) == [Literal('}'), Hole(name)];
    assert Tokenize(slot + closed) == [Hole(name), Literal('}'), Hole(name)];
  }

  // A literal brace breaks the agreement: the first replacement makes a slot that was not
  // in the template, and the second one fills it.
  lemma StrayBraceBreaksFilling()
    ensures var t := "{" + Slot("a") + "}" + Slot("a"); var values := map["a" := "a"];
      && !BraceFree(Tokenize(t))
      && Holes(Tokenize(t)) == ["a", "a"]
      && Fill(Tokenize(t), values) == "{a}a"
      && ReplaceSlots(t, ["a", "a"], values) == "aa"
  {
    var t := "{" + Slot("a") + "}" + Slot("a");
    var values := map["a" := "a"];
    assert t == ['{'] + (Slot("a") + (['}'] + Slot("a")));
    TokensAround("a", Slot("a"), t);
    var ts := Tokenize(t);
    assert ts[0] == Literal('{') && ts[0] in ts;
    FillingTheExample(ts, values);
    ReplacingTheExample();
    ReplacingTwice(t, values);
  }

  lemma ReplacingTwice(t: string, values: map<string, string>)
    requires values == map["a" := "a"]
    ensures ReplaceSlots(t, ["a", "a"], values) == Replace(Replace(t, Slot("a"), "a"), Slot("a"), "a")
  {
    assert ["a", "a"][1..] == ["a"] && ["a"][1..] == [];
  }

  lemma {:induction false} FillingTheExample(ts: seq<Token>, values: map<string, string>)
    requires ts == [Literal('{'), Hole("a"), Literal('}'), Hole("a")] && values == map["a" := "a"]
    ensures Fill(ts, values) == "{a}a" && Holes(ts) == ["a", "a"]
  {
    var t1, t2, t3 := ts[1..], ts[2..], ts[3..];
    assert t1[1..] == t2 && t2[1..] == t3 && t3[1..] == [];
    assert Fill(t3, values) == "a" && Fill(t2, values) == "}a" && Fill(t1, values) == "a}a";
    assert Holes(t3) == ["a"] && Holes(t2) == ["a"] && Holes(t1) == ["a", "a"];
  }

  lemma ReplacingTheExample()
    ensures Replace("{" + Slot("a") + "}" + Slot("a"), Slot("a"), "a") == "{a}a"
    ensures Replace("{a}a", Slot("a"), "a") == "aa"
  {
    var slot := Slot("a");
    ReplaceOnSlot("a", "}" + slot, "a", "a");
    ReplaceSkips("}", slot, slot, "a");
    ReplaceOnSlot("a", [], "a", "a");
    assert slot + [] == slot;
    var t := "{" + slot + "}" + slot;
    assert t[1..] == slot + ("}" + slot) && t[1] == '{' && slot[1] == 'a';
    ReplaceOnSlot("a", "a", "a", "a");
    assert "{a}a" == slot + "a";
    ReplaceSkips("a", [], slot, "a");
    assert "a" + [] == "a";
  }

  // ---- Words ----

  // The words of a template, kept as tokens.
  function WordsFrom(ts: seq<Token>, word: seq<Token>): seq<seq<Token>> {
    if ts == [] then
      if word == [] then [] else [word]
    else if ts[0].Literal? && IsSpace(ts[0].c) then
      if word == [] then WordsFrom(ts[1..], []) else [word] + WordsFrom(ts[1..], [])
    else
      WordsFrom(ts[1..], word + [ts[0]])
  }

  function Words(ts: seq<Token>): seq<seq<Token>> {
    WordsFrom(ts, [])
  }

  function FillEach(words: seq<seq<Token>>, values: map<string, string>): (r: seq<string>)
    ensures |r| == |words|
    ensures forall i | 0 <= i < |r| :: r[i] == Fill(words[i], values)
  {
    seq(|words|, i requires 0 <= i < |words| => Fill(words[i], values))
  }

  // Every hole is shown as a non-empty text without white space.
  predicate SolidHoles(ts: seq<Token>, values: map<string, string>) {
    forall i | 0 <= i < |ts| && ts[i].Hole? :: Show(ts[i], values) != [] && NoSpace(Show(ts[i], values))
  }

  lemma {:induction false} SplitFillsWords(ts: seq<Token>, word: seq<Token>, values: map<string, string>)
    requires SolidHoles(ts, values)
    requires word != [] ==> Fill(word, values) != []
    ensures SplitFrom(Fill(ts, values), Fill(word, values)) == FillEach(WordsFrom(ts, word), values)
  {
    if ts == [] {
    } else if ts[0].Literal? && IsSpace(ts[0].c) {
      SplitFillsWords(ts[1..], [], values);
      WordsAtSpace(ts, word, values);
    } else {
      ExtendWord(ts, word, values);
      SplitFillsWords(ts[1..], word + [ts[0]], values);
    }
  }

  lemma {:induction false} SplitAtSpace(c: char, rest: string, word: string)
    requires IsSpace(c)
    ensures SplitFrom([c] + rest, word) == (if word == [] then [] else [word]) + SplitFrom(rest, [])
  {
    assert ([c] + rest)[1..] == rest;
  }

  lemma {:induction false} FillEachPlus(word: seq<Token>, words: seq<seq<Token>>, values: map<string, string>)
    ensures FillEach([word] + words, values) == [Fill(word, values)] + FillEach(words, values)
  {}

  lemma {:induction false} WordsAtSpace(ts: seq<Token>, word: seq<Token>, values: map<string, string>)
    requires ts != [] && ts[0].Literal? && IsSpace(ts[0].c)
    requires word != [] ==> Fill(word, values) != []
    requires SplitFrom(Fill(ts[1..], values), []) == FillEach(WordsFrom(ts[1..], []), values)
    ensures SplitFrom(Fill(ts, values), Fill(word, values)) == FillEach(WordsFrom(ts, word), values)
  {
    SplitAtSpace(ts[0].c, Fill(ts[1..], values), Fill(word, values));
    FillEachPlus(word, WordsFrom(ts[1..], []), values);
  }

  lemma {:induction false} ExtendWord(ts: seq<Token>, word: seq<Token>, values: map<string, string>)
    requires ts != [] && Show(ts[0], values) != [] && NoSpace(Show(ts[0], values))
    ensures Fill(word + [ts[0]], values) == Fill(word, values) + Show(ts[0], values)
    ensures SplitFrom(Fill(ts, values), Fill(word, values))
         == SplitFrom(Fill(ts[1..], values), Fill(word + [ts[0]], values))
  {
    FillAppend(word, [ts[0]], values);
    assert [ts[0]][1..] == [];
    SplitSkipsWord(Show(ts[0], values), Fill(ts[1..], values), Fill(word, values));
  }

  // Values without white space can neither add, drop, split nor join words: the words of
  // the filled template are the filled words of the template.
  lemma {:induction false} FillKeepsWords(ts: seq<Token>, values: map<string, string>)
    requires SolidHoles(ts, values)
    ensures Split(Fill(ts, values)) == FillEach(Words(ts), values)
  {
    SplitFillsWords(ts, [], values);
  }
}

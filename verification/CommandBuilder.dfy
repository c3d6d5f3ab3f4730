// _build_command of app/tool_factory/execution.py: filling an approved template with the
// arguments of one call.
module CommandBuilder {
  import opened Wrappers
  import opened Text
  import opened Template
  import opened Validation

  datatype BuildError =
    | MissingArgument(name: string)
    | UnsafeArgument(name: string)
    | ForbiddenCharacters

  // The first placeholder, in template order, whose argument is missing or unsafe.
  function FirstBad(u: Unicode, names: seq<string>, arguments: map<string, Argument>): Option<BuildError> {
    if names == [] then None
    else if names[0] !in arguments then Some(MissingArgument(names[0]))
    else if ValidateArgumentValue(u, arguments[names[0]]).None? then Some(UnsafeArgument(names[0]))
    else FirstBad(u, names[1..], arguments)
  }

  // The texts of the acceptable arguments.
  function Values(u: Unicode, arguments: map<string, Argument>): map<string, string> {
    map n | n in arguments && ValidateArgumentValue(u, arguments[n]).Some?
      :: ValidateArgumentValue(u, arguments[n]).value
  }

  lemma {:induction false} NoneBad(u: Unicode, names: seq<string>, arguments: map<string, Argument>)
    ensures FirstBad(u, names, arguments).None? <==> forall n | n in names :: n in Values(u, arguments)
  {
    if names != [] {
      NoneBad(u, names[1..], arguments);
      assert names[0] in names;
      assert forall n :: n in names <==> n == names[0] || n in names[1..];
    }
  }

  // The substituted template before the final character check.
  function Substituted(u: Unicode, template: string, arguments: map<string, Argument>): string
    requires FirstBad(u, Holes(Tokenize(template)), arguments).None?
  {
    NoneBad(u, Holes(Tokenize(template)), arguments);
    ReplaceSlots(template, Holes(Tokenize(template)), Values(u, arguments))
  }

  lemma {:induction false} ReplaceStep(command: string, names: seq<string>, i: nat, values: map<string, string>)
    requires i < |names| && forall n | n in names :: n in values
    ensures forall n | n in names[i..] :: n in values
    ensures ReplaceSlots(command, names[i..], values)
         == ReplaceSlots(Replace(command, Slot(names[i]), values[names[i]]), names[i + 1..], values)
  {
    assert names[i..][0] == names[i] && names[i..][1..] == names[i + 1..];
  }

  // The placeholders are replaced one at a time, in template order and with repetitions.
  method BuildCommand(u: Unicode, template: string, arguments: map<string, Argument>)
    returns (r: Result<string, BuildError>)
    ensures var bad := FirstBad(u, Holes(Tokenize(template)), arguments);
      if bad.Some? then r == Err(bad.value)
      else if HasForbidden(Substituted(u, template, arguments)) then r == Err(ForbiddenCharacters)
      else r == Ok(Substituted(u, template, arguments))
  {
    var command := template;
    var names := Holes(Tokenize(template));
    ghost var values := Values(u, arguments);
    NoneBad(u, names, arguments);
    for i := 0 to |names|
      invariant FirstBad(u, names, arguments) == FirstBad(u, names[i..], arguments)
      invariant FirstBad(u, names, arguments).None? ==>
        ReplaceSlots(command, names[i..], values) == ReplaceSlots(template, names, values)
    {
      var name := names[i];
      if FirstBad(u, names, arguments).None? { ReplaceStep(command, names, i, values); }
      if name !in arguments {
        return Err(MissingArgument(name));
      }
      var value := ValidateArgumentValue(u, arguments[name]);
      if value.None? {
        return Err(UnsafeArgument(name));
      }
      command := Replace(command, Slot(name), value.value);
    }
    if HasForbidden(command) {
      return Err(ForbiddenCharacters);
    }
    return Ok(command);
  }

  // ---- White space around a template ----

  function Literals(s: string): (ts: seq<Token>)
    ensures |ts| == |s| && forall i | 0 <= i < |s| :: ts[i] == Literal(s[i])
  {
    seq(|s|, i requires 0 <= i < |s| => Literal(s[i]))
  }

  lemma {:induction false} TokenizeAfterSpace(x: string, s: string)
    requires AllSpace(x)
    ensures Tokenize(x + s) == Literals(x) + Tokenize(s)
  {
    if x == [] {
      assert x + s == s;
    } else {
      assert (x + s)[1..] == x[1..] + s && IsSpace(x[0]);
      TokenizeAfterSpace(x[1..], s);
      assert Literals(x) == [Literal(x[0])] + Literals(x[1..]);
    }
  }

  lemma HoleBeforeSpace(s: string, y: string)
    requires AllSpace(y) && s != []
    ensures HoleAt(s + y) == HoleAt(s)
  {
    var t := s + y;
    assert t[0] == s[0];
    if s[0] == '{' {
      assert t[1..] == s[1..] + y;
      NameBeforeSpace(s[1..], y);
      var n := NameLength(s[1..]);
      assert t[1..1 + n] == s[1..1 + n];
      if 1 + n < |t| {
        assert 1 + n < |s| ==> t[1 + n] == s[1 + n];
        assert 1 + n == |s| ==> t[1 + n] == y[0] && IsSpace(y[0]);
      }
    }
  }

  lemma {:induction false} NameBeforeSpace(s: string, y: string)
    requires AllSpace(y)
    ensures NameLength(s + y) == NameLength(s)
  {
    if s == [] {
      assert s + y == y;
      if y != [] { assert IsSpace(y[0]); }
    } else {
      assert (s + y)[1..] == s[1..] + y;
      NameBeforeSpace(s[1..], y);
    }
  }

  lemma {:induction false} TokenizeBeforeSpace(s: string, y: string)
    requires AllSpace(y)
    ensures Tokenize(s + y) == Tokenize(s) + Literals(y)
    decreases |s|
  {
    if s == [] {
      assert s + y == y && y + [] == y;
      TokenizeAfterSpace(y, []);
    } else {
      HoleBeforeSpace(s, y);
      var n := if HoleAt(s).Some? then |HoleAt(s).value| + 2 else 1;
      assert (s + y)[n..] == s[n..] + y;
      TokenizeBeforeSpace(s[n..], y);
    }
  }

  lemma {:induction false} SplitAfterSpace(x: string, s: string)
    requires AllSpace(x)
    ensures Split(x + s) == Split(s)
  {
    if x == [] {
      assert x + s == s;
    } else {
      assert (x + s)[1..] == x[1..] + s;
      SplitAfterSpace(x[1..], s);
      assert [] + SplitFrom(x[1..] + s, []) == SplitFrom(x[1..] + s, []);
    }
  }

  lemma {:induction false} SplitBeforeSpace(s: string, y: string, word: string)
    requires AllSpace(y)
    ensures SplitFrom(s + y, word) == SplitFrom(s, word)
  {
    if s == [] {
      assert s + y == y;
      SplitSpace(y, word);
    } else {
      assert (s + y)[1..] == s[1..] + y;
      SplitBeforeSpace(s[1..], y, if IsSpace(s[0]) then [] else word + [s[0]]);
    }
  }

  lemma {:induction false} SplitSpace(y: string, word: string)
    requires AllSpace(y)
    ensures SplitFrom(y, word) == if word == [] then [] else [word]
  {
    if y != [] {
      SplitSpace(y[1..], []);
    }
  }

  lemma {:induction false} MaskedLiterals(ts: seq<Token>)
    requires !HasShellMeta(Masked(ts))
    ensures forall t | t in ts && t.Literal? :: !IsShellMeta(t.c)
  {
    if ts != [] {
      var m := if ts[0].Hole? then "PH" else [ts[0].c];
      assert forall i | 0 <= i < |Masked(ts[1..])| :: Masked(ts)[|m| + i] == Masked(ts[1..])[i];
      assert Masked(ts)[0] == m[0];
      MaskedLiterals(ts[1..]);
    }
  }

  lemma {:induction false} TokenizeAround(before: string, core: string, after: string)
    requires AllSpace(before) && AllSpace(after)
    ensures Tokenize(before + (core + after)) == Literals(before) + (Tokenize(core) + Literals(after))
    ensures Split(before + (core + after)) == Split(core)
  {
    TokenizeAfterSpace(before, core + after);
    TokenizeBeforeSpace(core, after);
    SplitAfterSpace(before, core + after);
    SplitBeforeSpace(core, after, []);
  }

  lemma {:induction false} TokenizeStripped(s: string) returns (before: string, after: string)
    ensures AllSpace(before) && AllSpace(after)
    ensures Tokenize(s) == Literals(before) + (Tokenize(Strip(s)) + Literals(after))
    ensures Split(s) == Split(Strip(s))
    ensures Strip(s) != [] ==> !IsSpace(Strip(s)[0])
  {
    before, after := StripSplits(s);
    TokenizeAround(before, Strip(s), after);
  }

  lemma OuterLiterals(before: string, core: seq<Token>, after: string, t: Token)
    requires AllSpace(before) && AllSpace(after) && !HasShellMeta(Masked(core))
    requires t in Literals(before) + (core + Literals(after)) && t.Literal?
    ensures IsForbidden(t.c) ==> IsLineBreak(t.c)
  {
    if t in core {
      MaskedLiterals(core);
    } else {
      if t in Literals(before) {
        var i :| 0 <= i < |before| && Literals(before)[i] == t;
      } else {
        var i :| 0 <= i < |after| && Literals(after)[i] == t;
      }
    }
  }

  lemma OuterHoles(before: string, core: seq<Token>, after: string)
    ensures Holes(Literals(before) + (core + Literals(after))) == Holes(core)
  {
    HolesAppend(Literals(before), core + Literals(after));
    HolesAppend(core, Literals(after));
    NoHoles(Literals(before));
    NoHoles(Literals(after));
  }

  lemma LiteralsAreSafe(template: string)
    requires !HasShellMeta(Masked(Tokenize(Strip(template))))
    ensures forall t | t in Tokenize(template) && t.Literal? :: IsForbidden(t.c) ==> IsLineBreak(t.c)
  {
    var before, after := TokenizeStripped(template);
    var core := Tokenize(Strip(template));
    forall t | t in Tokenize(template) && t.Literal? ensures IsForbidden(t.c) ==> IsLineBreak(t.c) {
      OuterLiterals(before, core, after, t);
    }
  }

  lemma {:induction false} SafeIsBraceFree(ts: seq<Token>)
    requires forall t | t in ts && t.Literal? :: IsForbidden(t.c) ==> IsLineBreak(t.c)
    ensures BraceFree(ts)
  {
    assert forall c: char :: c == '{' || c == '}' ==> IsForbidden(c) && !IsLineBreak(c);
  }

  // In an accepted template only the outer white space can hold a character the resolved
  // command must not hold; the stripped text decides the placeholders and the words.
  lemma AcceptedTemplate(u: Unicode, policy: Policy, template: string, declared: set<string>)
    requires ValidTemplate(u, policy, template, declared)
    ensures forall t | t in Tokenize(template) && t.Literal? :: IsForbidden(t.c) ==> IsLineBreak(t.c)
    ensures BraceFree(Tokenize(template))
    ensures Split(template) == Split(Strip(template))
    ensures Holes(Tokenize(template)) == Holes(Tokenize(Strip(template)))
  {
    LiteralsAreSafe(template);
    SafeIsBraceFree(Tokenize(template));
    var before, after := TokenizeStripped(template);
    OuterHoles(before, Tokenize(Strip(template)), after);
  }

  lemma {:induction false} HolesAppend(xs: seq<Token>, ys: seq<Token>)
    ensures Holes(xs + ys) == Holes(xs) + Holes(ys)
  {
    if xs == [] {
      assert xs + ys == ys;
    } else {
      assert (xs + ys)[1..] == xs[1..] + ys;
      HolesAppend(xs[1..], ys);
    }
  }

  lemma {:induction false} NoHoles(ts: seq<Token>)
    requires forall i | 0 <= i < |ts| :: ts[i].Literal?
    ensures Holes(ts) == []
  {
    if ts != [] { NoHoles(ts[1..]); }
  }

  // ---- The main results ----

  // One-at-a-time replacement of an accepted template is the simultaneous substitution.
  lemma {:induction false} SubstitutionIsSimultaneous(u: Unicode, policy: Policy, template: string, declared: set<string>,
                                   arguments: map<string, Argument>)
    requires Standard(u) && ValidTemplate(u, policy, template, declared)
    requires FirstBad(u, Holes(Tokenize(template)), arguments).None?
    ensures Substituted(u, template, arguments) == Fill(Tokenize(template), Values(u, arguments))
  {
    var ts, values := Tokenize(template), Values(u, arguments);
    NoneBad(u, Holes(ts), arguments);
    AcceptedTemplate(u, policy, template, declared);
    forall n | n in values ensures NoBraces(values[n]) {
      AcceptedValue(u, arguments[n]);
    }
    FillNothing(template);
    ReplacingIsFilling(ts, Holes(ts), values, map[]);
  }

  lemma {:induction false} FillHolds(ts: seq<Token>, values: map<string, string>, p: char -> bool)
    ensures Any(Fill(ts, values), p) <==> exists t | t in ts :: Any(Show(t, values), p)
  {
    if ts != [] {
      FillHolds(ts[1..], values, p);
      AnyAppend(Show(ts[0], values), Fill(ts[1..], values), p);
      assert forall t :: t in ts <==> t == ts[0] || t in ts[1..];
    }
  }

  lemma ShownLineBreak(t: Token)
    requires t.Hole? ==> IsName(t.name)
    ensures HasLineBreak(Show(t, map[])) <==> t.Literal? && IsLineBreak(t.c)
  {
    match t {
      case Literal(c) => assert [c][0] == c;
      case Hole(name) =>
        assert forall i | 0 <= i < |name| :: Slot(name)[i + 1] == name[i] && IsNameChar(name[i]);
    }
  }

  lemma {:induction false} TemplateLineBreak(template: string)
    ensures HasLineBreak(template) <==> exists t | t in Tokenize(template) :: t.Literal? && IsLineBreak(t.c)
  {
    var ts := Tokenize(template);
    FillNothing(template);
    FillHolds(ts, map[], IsLineBreak);
    forall t | t in ts ensures HasLineBreak(Show(t, map[])) <==> t.Literal? && IsLineBreak(t.c) {
      ShownLineBreak(t);
    }
  }

  // A used value that ends with the line feed the value pattern lets through.
  predicate LineFeedValue(u: Unicode, names: seq<string>, arguments: map<string, Argument>) {
    var values := Values(u, arguments);
    exists n | n in names :: n in values && '\n' in values[n]
  }

  lemma ShownValue(u: Unicode, t: Token, arguments: map<string, Argument>)
    requires Standard(u)
    requires t.Hole? ==> IsName(t.name) && t.name in Values(u, arguments)
    ensures HasForbidden(Show(t, Values(u, arguments)))
         == if t.Literal? then IsForbidden(t.c) else '\n' in Values(u, arguments)[t.name]
    ensures t.Hole? && '\n' !in Values(u, arguments)[t.name] ==>
      Show(t, Values(u, arguments)) != [] && NoSpace(Show(t, Values(u, arguments)))
  {
    match t {
      case Literal(c) => assert [c][0] == c;
      case Hole(name) => AcceptedValue(u, arguments[name]);
    }
  }

  lemma ShownSlot(name: string)
    requires IsName(name)
    ensures Slot(name) != [] && NoSpace(Slot(name))
  {
    assert forall j | 0 <= j < |name| :: IsNameChar(name[j]) && Slot(name)[j + 1] == name[j];
  }

  // A literal line break, or a hole whose value has a line feed.
  predicate Breaks(t: Token, values: map<string, string>) {
    match t
    case Literal(c) => IsLineBreak(c)
    case Hole(name) => name in values && '\n' in values[name]
  }

  predicate SomeBreak(ts: seq<Token>, values: map<string, string>) { exists t | t in ts :: Breaks(t, values) }

  lemma BreaksAreFromOutside(u: Unicode, template: string, arguments: map<string, Argument>)
    ensures SomeBreak(Tokenize(template), Values(u, arguments))
         == (HasLineBreak(template) || LineFeedValue(u, Holes(Tokenize(template)), arguments))
  {
    var ts, values := Tokenize(template), Values(u, arguments);
    TemplateLineBreak(template);
    if t :| t in ts && Breaks(t, values) && t.Hole? {
      assert t.name in Holes(ts);
    }
    if n :| n in Holes(ts) && n in values && '\n' in values[n] {
      assert Breaks(Hole(n), values);
    }
    if t :| t in ts && t.Literal? && IsLineBreak(t.c) {
      assert Breaks(t, values);
    }
  }

  // The final character check refuses exactly a template with a line break or tab (it can
  // only stand in the outer white space) or a used value with a final line feed.
  lemma {:induction false} FinalCheckFires(u: Unicode, policy: Policy, template: string, declared: set<string>,
                        arguments: map<string, Argument>)
    requires Standard(u) && ValidTemplate(u, policy, template, declared)
    requires FirstBad(u, Holes(Tokenize(template)), arguments).None?
    ensures HasForbidden(Substituted(u, template, arguments))
         == (HasLineBreak(template) || LineFeedValue(u, Holes(Tokenize(template)), arguments))
  {
    var ts, values := Tokenize(template), Values(u, arguments);
    SubstitutionIsSimultaneous(u, policy, template, declared, arguments);
    FillHolds(ts, values, IsForbidden);
    NoneBad(u, Holes(ts), arguments);
    AcceptedTemplate(u, policy, template, declared);
    forall t | t in ts ensures HasForbidden(Show(t, values)) == Breaks(t, values) {
      ShownBreaks(u, arguments, t);
    }
    assert HasForbidden(Fill(ts, values)) == SomeBreak(ts, values);
    BreaksAreFromOutside(u, template, arguments);
  }

  lemma ShownBreaks(u: Unicode, arguments: map<string, Argument>, t: Token)
    requires Standard(u)
    requires t.Hole? ==> IsName(t.name) && t.name in Values(u, arguments)
    requires t.Literal? && IsForbidden(t.c) ==> IsLineBreak(t.c)
    ensures HasForbidden(Show(t, Values(u, arguments))) == Breaks(t, Values(u, arguments))
  {
    ShownValue(u, t, arguments);
  }

  // A command that is built consists of the template's words with their slots filled: as
  // many words, in the same order, and the first one is the template's allowed binary.
  lemma {:induction false} BuiltCommand(u: Unicode, policy: Policy, template: string, declared: set<string>,
                     arguments: map<string, Argument>)
    requires Standard(u) && PlainBinaries(policy) && ValidTemplate(u, policy, template, declared)
    requires FirstBad(u, Holes(Tokenize(template)), arguments).None?
    requires !HasForbidden(Substituted(u, template, arguments))
    ensures var command, words := Substituted(u, template, arguments), Words(Tokenize(template));
      && Split(command) == FillEach(words, Values(u, arguments))
      && Split(template) == FillEach(words, map[])
      && 1 <= |Split(command)| == |Split(template)| <= MAX_TEMPLATE_WORDS
      && Split(command)[0] == Split(template)[0] && Split(command)[0] in policy.binaries
  {
    var ts, values := Tokenize(template), Values(u, arguments);
    SubstitutionIsSimultaneous(u, policy, template, declared, arguments);
    FinalCheckFires(u, policy, template, declared, arguments);
    SolidValues(u, ts, arguments);
    FillKeepsWords(ts, values);
    FillKeepsWords(ts, map[]);
    FillNothing(template);
    AcceptedTemplate(u, policy, template, declared);
    var before, after := TokenizeStripped(template);
    SomeWord(Strip(template), []);
    BinaryHasNoSlot(Words(ts)[0], values);
  }

  lemma {:induction false} SolidValues(u: Unicode, ts: seq<Token>, arguments: map<string, Argument>)
    requires Standard(u) && WellFormed(ts)
    requires FirstBad(u, Holes(ts), arguments).None?
    requires !LineFeedValue(u, Holes(ts), arguments)
    ensures SolidHoles(ts, Values(u, arguments)) && SolidHoles(ts, map[])
  {
    var values := Values(u, arguments);
    NoneBad(u, Holes(ts), arguments);
    forall i | 0 <= i < |ts| && ts[i].Hole?
      ensures Show(ts[i], values) != [] && NoSpace(Show(ts[i], values))
      ensures Show(ts[i], map[]) != [] && NoSpace(Show(ts[i], map[]))
    {
      assert ts[i] in ts && ts[i].name in Holes(ts);
      ShownValue(u, ts[i], arguments);
      ShownSlot(ts[i].name);
    }
  }

  lemma {:induction false} SomeWord(s: string, word: string)
    requires word != [] || (s != [] && !IsSpace(s[0]))
    ensures SplitFrom(s, word) != []
  {
    if s != [] && !IsSpace(s[0]) {
      SomeWord(s[1..], word + [s[0]]);
    }
  }

  lemma {:induction false} BinaryHasNoSlot(word: seq<Token>, values: map<string, string>)
    requires NoBraces(Fill(word, map[]))
    ensures Fill(word, values) == Fill(word, map[])
  {
    if word != [] {
      var shown, rest := Show(word[0], map[]), Fill(word[1..], map[]);
      assert Fill(word, map[]) == shown + rest;
      assert shown[0] in shown + rest;
      assert NoBraces(rest) by {
        assert forall c | c in rest :: c in shown + rest;
      }
      BinaryHasNoSlot(word[1..], values);
    }
  }

  // ---- The subcommand ----

  // The first value that is brought in ahead of the template's own first plain word: that
  // of a slot, unless it reads as a flag.
  function FirstSlotValue(template: seq<string>, values: map<string, string>): Option<string> {
    if template == [] then None
    else if IsSlot(template[0]) then
      var name := HoleAt(template[0]).value;
      if name in values && !("-" <= values[name]) then Some(values[name])
      else FirstSlotValue(template[1..], values)
    else if "-" <= template[0] then FirstSlotValue(template[1..], values)
    else None
  }

  predicate FilledAs(word: string, built: string, values: map<string, string>) {
    var name := HoleAt(word);
    name.Some? && name.value in values && built == values[name.value]
  }

  // How a template's words and the built ones go together.
  predicate Corresponds(template: seq<string>, built: seq<string>, values: map<string, string>) {
    && |template| == |built|
    && (forall i | 0 <= i < |built| :: !IsSlot(built[i]))
    && (forall i | 0 <= i < |template| && IsSlot(template[i]) :: FilledAs(template[i], built[i], values))
    && (forall i | 0 <= i < |template| && "-" <= template[i] :: "-" <= built[i])
    && (forall i | 0 <= i < |template| && NoBraces(template[i]) :: built[i] == template[i])
  }

  lemma {:induction false} BuiltSubcommand(template: seq<string>, built: seq<string>, values: map<string, string>)
    requires Corresponds(template, built, values)
    requires FirstPlainWord(template).Some? ==> NoBraces(FirstPlainWord(template).value)
    ensures FirstPlainWord(built)
         == var brought := FirstSlotValue(template, values);
            if brought.Some? then brought else FirstPlainWord(template)
  {
    if template != [] {
      if IsSlot(template[0]) || "-" <= template[0] {
        BuiltSubcommand(template[1..], built[1..], values);
      }
    }
  }

  lemma {:induction false} SplitHolds(s: string, word: string, w: string, c: char)
    requires w in SplitFrom(s, word) && c in w
    ensures c in s || c in word
  {
    if s != [] {
      if IsSpace(s[0]) {
        if w in SplitFrom(s[1..], []) { SplitHolds(s[1..], [], w, c); }
      } else {
        SplitHolds(s[1..], word + [s[0]], w, c);
      }
    }
  }

  lemma BuiltWordHasNoBrace(command: string, w: string)
    requires !HasForbidden(command) && w in Split(command)
    ensures NoBraces(w) && !IsSlot(w)
  {
    forall c | c in w ensures c != '{' && c != '}' {
      SplitHolds(command, [], w, c);
      var i :| 0 <= i < |command| && command[i] == c;
    }
  }

  lemma FlagStaysFlag(word: seq<Token>, values: map<string, string>)
    requires "-" <= Fill(word, map[])
    ensures "-" <= Fill(word, values)
  {
    assert word != [];
    var shown := Show(word[0], map[]);
    assert shown[0] == Fill(word, map[])[0] == '-';
  }

  // A word that reads as a slot is that slot and nothing else.
  lemma SlotWord(word: seq<Token>, name: string)
    requires BraceFree(word) && WellFormed(word) && IsName(name) && Fill(word, map[]) == Slot(name)
    ensures word == [Hole(name)]
  {
    var t, rest := word[0], Fill(word[1..], map[]);
    assert t in word && Fill(word, map[]) == Show(t, map[]) + rest;
    assert Slot(name)[0] == '{' && Show(t, map[])[0] == (Show(t, map[]) + rest)[0];
    assert Slot(name) + [] == Slot(name);
    SlotFoundBySlot(name, t.name, []);
    assert rest == [];
  }

  lemma SlotIsFilled(word: seq<Token>, values: map<string, string>)
    requires BraceFree(word) && WellFormed(word) && IsSlot(Fill(word, map[]))
    requires forall t <- word | t.Hole? :: t.name in values
    ensures FilledAs(Fill(word, map[]), Fill(word, values), values)
  {
    var name := HoleAt(Fill(word, map[])).value;
    SlotWord(word, name);
    assert Hole(name) in word && [Hole(name)][1..] == [];
  }

  // The words hold no other tokens than the template.
  lemma {:induction false} WordTokens(ts: seq<Token>, word: seq<Token>, w: seq<Token>, t: Token)
    requires w in WordsFrom(ts, word) && t in w
    ensures t in ts || t in word
  {
    if ts != [] {
      if ts[0].Literal? && IsSpace(ts[0].c) {
        if w in WordsFrom(ts[1..], []) { WordTokens(ts[1..], [], w, t); }
      } else {
        WordTokens(ts[1..], word + [ts[0]], w, t);
      }
    }
  }

  lemma TemplateWord(ts: seq<Token>, w: seq<Token>, values: map<string, string>)
    requires BraceFree(ts) && WellFormed(ts) && w in Words(ts)
    requires forall n <- Holes(ts) :: n in values
    ensures BraceFree(w) && WellFormed(w) && forall t <- w | t.Hole? :: t.name in values
  {
    forall t | t in w ensures t in ts {
      WordTokens(ts, [], w, t);
    }
  }

  lemma WordsCorrespond(ts: seq<Token>, values: map<string, string>, command: string)
    requires BraceFree(ts) && WellFormed(ts) && forall n <- Holes(ts) :: n in values
    requires !HasForbidden(command) && Split(command) == FillEach(Words(ts), values)
    ensures Corresponds(FillEach(Words(ts), map[]), FillEach(Words(ts), values), values)
  {
    var words := Words(ts);
    var template, built := FillEach(words, map[]), FillEach(words, values);
    forall i | 0 <= i < |words|
      ensures !IsSlot(built[i])
      ensures IsSlot(template[i]) ==> FilledAs(template[i], built[i], values)
      ensures "-" <= template[i] ==> "-" <= built[i]
      ensures NoBraces(template[i]) ==> built[i] == template[i]
    {
      BuiltWordHasNoBrace(command, built[i]);
      TemplateWord(ts, words[i], values);
      if IsSlot(template[i]) { SlotIsFilled(words[i], values); }
      if "-" <= template[i] { FlagStaysFlag(words[i], values); }
      if NoBraces(template[i]) { BinaryHasNoSlot(words[i], values); }
    }
  }

  // A built command keeps to the allowed subcommands exactly when the binary has no list,
  // or the first argument, other than a flag, for a placeholder before the template's own
  // subcommand (if there is one) is an allowed subcommand.
  lemma {:induction false} SubcommandKeptIff(u: Unicode, policy: Policy, template: string, declared: set<string>,
                          arguments: map<string, Argument>)
    requires Standard(u) && PlainBinaries(policy) && PlainSubcommands(policy)
    requires ValidTemplate(u, policy, template, declared)
    requires FirstBad(u, Holes(Tokenize(template)), arguments).None?
    requires !HasForbidden(Substituted(u, template, arguments))
    ensures var built, words := Split(Substituted(u, template, arguments)), Split(template);
      && 1 <= |built| == |words| && built[0] == words[0] && built[0] in policy.binaries
      && (SubcommandAllowed(policy, built) <==>
            var allowed, brought := policy.binaries[words[0]], FirstSlotValue(words[1..], Values(u, arguments));
            allowed == [] || brought.None? || brought.value in allowed)
  {
    var command := Substituted(u, template, arguments);
    var built, words := Split(command), Split(template);
    BuiltCommand(u, policy, template, declared, arguments);
    AcceptedTemplate(u, policy, template, declared);
    NoneBad(u, Holes(Tokenize(template)), arguments);
    WordsCorrespond(Tokenize(template), Values(u, arguments), command);
    if policy.binaries[built[0]] != [] {
      BuiltSubcommand(words[1..], built[1..], Values(u, arguments));
    }
  }
}

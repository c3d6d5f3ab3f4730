// The create-time gate on command templates and the run-time gate on argument values
// (app/tool_factory/validation.py).
module Validation {
  import opened Wrappers
  import opened Text
  import opened Template

  const MAX_TEMPLATE_LENGTH := 500
  const MAX_TEMPLATE_WORDS := 24

  // What the Unicode tables decide: the class \w and str.lower().
  datatype Unicode = Unicode(isWord: char -> bool, lower: string -> string)

  // Word characters are never white space; below U+0080 they are letters, digits and '_'.
  ghost predicate Standard(u: Unicode) {
    && (forall c :: u.isWord(c) ==> !IsSpace(c))
    && (forall c | c < '\U{80}' ::
          u.isWord(c) <==> 'a' <= c <= 'z' || 'A' <= c <= 'Z' || '0' <= c <= '9' || c == '_')
  }

  // The allowed binaries with their allowed subcommands, and the denied tokens.
  datatype Policy = Policy(binaries: map<string, seq<string>>, denied: seq<string>)

  ghost predicate PlainBinaries(policy: Policy) {
    forall b | b in policy.binaries :: NoBraces(b)
  }

  // No allowed subcommand holds a brace.
  ghost predicate PlainSubcommands(policy: Policy) {
    forall b, i | b in policy.binaries && 0 <= i < |policy.binaries[b]| :: NoBraces(policy.binaries[b][i])
  }

  datatype Issue =
    | Empty
    | TooLong
    | ShellMetacharacters
    | DeniedToken(token: string)
    | TooComplex
    | BinaryNotAllowed(binary: string)
    | SubcommandNotAllowed(binary: string, subcommand: string)
    | UndeclaredPlaceholder(name: string)

  // The characters of _SHELL_META_RE.
  predicate IsShellMeta(c: char) {
    IsForbidden(c) || c == '[' || c == ']' || c == '*' || c == '?' || c == '~'
  }

  // The characters the resolved command is searched for.
  predicate IsForbidden(c: char) {
    || c == ';' || c == '|' || c == '&' || c == '$' || c == '`' || c == '(' || c == ')'
    || c == '<' || c == '>' || c == '{' || c == '}' || c == '!' || c == '\\'
    || IsLineBreak(c)
  }

  predicate IsLineBreak(c: char) {
    c == '\n' || c == '\r' || c == '\t'
  }

  predicate HasShellMeta(s: string) {
    Any(s, IsShellMeta)
  }

  predicate HasForbidden(s: string) {
    Any(s, IsForbidden)
  }

  predicate HasLineBreak(s: string) {
    Any(s, IsLineBreak)
  }

  // A word that is exactly one placeholder.
  predicate IsSlot(word: string) {
    var h := HoleAt(word);
    h.Some? && word == Slot(h.value)
  }

  // The first word that is neither a flag nor a placeholder.
  function FirstPlainWord(words: seq<string>): (w: Option<string>)
    ensures w.None? <==> forall i | 0 <= i < |words| :: "-" <= words[i] || IsSlot(words[i])
    ensures w.Some? ==> w.value in words && !("-" <= w.value) && !IsSlot(w.value)
  {
    if words == [] then None
    else if !("-" <= words[0]) && !IsSlot(words[0]) then Some(words[0])
    else FirstPlainWord(words[1..])
  }

  predicate SubcommandAllowed(policy: Policy, words: seq<string>)
    requires words != [] && words[0] in policy.binaries
  {
    var subcommand := FirstPlainWord(words[1..]);
    policy.binaries[words[0]] == [] || subcommand.None? || subcommand.value in policy.binaries[words[0]]
  }

  // A template every rule accepts.
  predicate ValidTemplate(u: Unicode, policy: Policy, template: string, declared: set<string>) {
    var stripped := Strip(template);
    var words := Split(stripped);
    && stripped != []
    && |stripped| <= MAX_TEMPLATE_LENGTH
    && !HasShellMeta(Masked(Tokenize(stripped)))
    && (forall i | 0 <= i < |policy.denied| :: !Contains(u.lower(stripped), policy.denied[i]))
    && |words| <= MAX_TEMPLATE_WORDS
    && (words != [] ==> words[0] in policy.binaries && SubcommandAllowed(policy, words))
    && (forall name | name in Holes(Tokenize(stripped)) :: name in declared)
  }

  // Whether a (stripped, non-empty) template breaks the rule an issue stands for.
  predicate Broken(u: Unicode, policy: Policy, template: string, declared: set<string>, issue: Issue) {
    var words := Split(template);
    match issue
    case Empty => false
    case TooLong => |template| > MAX_TEMPLATE_LENGTH
    case ShellMetacharacters => HasShellMeta(Masked(Tokenize(template)))
    case DeniedToken(token) => token in policy.denied && Contains(u.lower(template), token)
    case TooComplex => |words| > MAX_TEMPLATE_WORDS
    case BinaryNotAllowed(binary) => words != [] && words[0] == binary && binary !in policy.binaries
    case SubcommandNotAllowed(binary, subcommand) =>
      && words != [] && words[0] == binary && binary in policy.binaries
      && !SubcommandAllowed(policy, words) && FirstPlainWord(words[1..]) == Some(subcommand)
    case UndeclaredPlaceholder(name) => name in Holes(Tokenize(template)) && name !in declared
  }

  // validate_command_template: exactly the rules the template breaks, so nothing for a
  // valid one. A value that is not a string is passed as None.
  method ValidateCommandTemplate(u: Unicode, policy: Policy, input: Option<string>, declared: set<string>)
    returns (issues: seq<Issue>)
    ensures input.None? || Strip(input.value) == [] ==> issues == [Empty]
    ensures input.Some? && Strip(input.value) != [] ==>
      forall x :: x in issues <==> Broken(u, policy, Strip(input.value), declared, x)
    ensures issues == [] <==> input.Some? && ValidTemplate(u, policy, input.value, declared)
  {
    issues := [];
    if input.None? || Strip(input.value) == [] {
      return [Empty];
    }
    var template := Strip(input.value);
    if |template| > MAX_TEMPLATE_LENGTH {
      issues := issues + [TooLong];
    }
    if HasShellMeta(Masked(Tokenize(template))) {
      issues := issues + [ShellMetacharacters];
    }
    var denied := DeniedTokens(u.lower(template), policy.denied);
    var wordIssues := CheckWords(policy, Split(template));
    var undeclared := UndeclaredPlaceholders(Holes(Tokenize(template)), declared);
    issues := issues + denied + wordIssues + undeclared;
    NoIssues(u, policy, input.value, declared, issues);
  }

  method DeniedTokens(lowered: string, denied: seq<string>) returns (issues: seq<Issue>)
    ensures forall x :: x in issues <==> x.DeniedToken? && x.token in denied && Contains(lowered, x.token)
  {
    issues := [];
    for i := 0 to |denied|
      invariant forall x :: x in issues <==>
        x.DeniedToken? && x.token in denied[..i] && Contains(lowered, x.token)
    {
      if Contains(lowered, denied[i]) {
        issues := issues + [DeniedToken(denied[i])];
      }
    }
    assert denied[..|denied|] == denied;
  }

  method CheckWords(policy: Policy, words: seq<string>) returns (issues: seq<Issue>)
    ensures forall x :: x in issues <==>
      || (x.TooComplex? && |words| > MAX_TEMPLATE_WORDS)
      || (x.BinaryNotAllowed? && words != [] && words[0] == x.binary && x.binary !in policy.binaries)
      || (x.SubcommandNotAllowed? && words != [] && words[0] == x.binary && x.binary in policy.binaries
          && !SubcommandAllowed(policy, words) && FirstPlainWord(words[1..]) == Some(x.subcommand))
  {
    issues := [];
    if |words| > MAX_TEMPLATE_WORDS {
      issues := issues + [TooComplex];
    }
    if words != [] {
      var binary := words[0];
      if binary !in policy.binaries {
        issues := issues + [BinaryNotAllowed(binary)];
      } else {
        var allowed := policy.binaries[binary];
        if allowed != [] {
          var subcommand := FirstPlainWord(words[1..]);
          if subcommand.Some? && subcommand.value !in allowed {
            issues := issues + [SubcommandNotAllowed(binary, subcommand.value)];
          }
        }
      }
    }
  }

  method UndeclaredPlaceholders(names: seq<string>, declared: set<string>) returns (issues: seq<Issue>)
    ensures forall x :: x in issues <==> x.UndeclaredPlaceholder? && x.name in names && x.name !in declared
  {
    issues := [];
    for i := 0 to |names|
      invariant forall x :: x in issues <==>
        x.UndeclaredPlaceholder? && x.name in names[..i] && x.name !in declared
    {
      if names[i] !in declared {
        issues := issues + [UndeclaredPlaceholder(names[i])];
      }
    }
    assert names[..|names|] == names;
  }

  // When the list holds exactly the broken rules, it is empty exactly for a valid template.
  lemma NoIssues(u: Unicode, policy: Policy, input: string, declared: set<string>, issues: seq<Issue>)
    requires Strip(input) != []
    requires forall x :: x in issues <==> Broken(u, policy, Strip(input), declared, x)
    ensures issues == [] <==> ValidTemplate(u, policy, input, declared)
  {
    var t := Strip(input);
    var words := Split(t);
    if issues == [] {
      assert !Broken(u, policy, t, declared, TooLong) && !Broken(u, policy, t, declared, TooComplex);
      assert !Broken(u, policy, t, declared, ShellMetacharacters);
      forall i | 0 <= i < |policy.denied| ensures !Contains(u.lower(t), policy.denied[i]) {
        assert !Broken(u, policy, t, declared, DeniedToken(policy.denied[i]));
      }
      forall name | name in Holes(Tokenize(t)) ensures name in declared {
        assert !Broken(u, policy, t, declared, UndeclaredPlaceholder(name));
      }
      if words != [] {
        assert !Broken(u, policy, t, declared, BinaryNotAllowed(words[0]));
        var subcommand := FirstPlainWord(words[1..]);
        if subcommand.Some? {
          assert !Broken(u, policy, t, declared, SubcommandNotAllowed(words[0], subcommand.value));
        }
      }
    } else {
      assert Broken(u, policy, t, declared, issues[0]);
    }
  }

  // ---- Argument values ----

  datatype Argument = Boolean(b: bool) | Integer(n: int) | Str(s: string) | Other

  const MAX_INTEGER := 100000
  const MAX_VALUE_LENGTH := 128

  // Where `$` matches: at the end, or just before a final line feed.
  function BeforeFinalLineFeed(s: string): string {
    if s != [] && s[|s| - 1] == '\n' then s[..|s| - 1] else s
  }

  predicate IsValueChar(u: Unicode, c: char) {
    u.isWord(c) || c == '.' || c == '-'
  }

  predicate SafeValue(u: Unicode, s: string) {
    var body := BeforeFinalLineFeed(s);
    1 <= |body| <= MAX_VALUE_LENGTH && forall i | 0 <= i < |body| :: IsValueChar(u, body[i])
  }

  function ValidateArgumentValue(u: Unicode, a: Argument): Option<string> {
    match a
    case Boolean(_) => None
    case Integer(n) => if 0 <= n <= MAX_INTEGER then Some(Decimal(n)) else None
    case Str(s) => if SafeValue(u, s) then Some(s) else None
    case Other => None
  }

  // An accepted value holds word characters, dots and dashes, except that the `$` of the
  // pattern lets one final line feed through.
  lemma AcceptedValue(u: Unicode, a: Argument)
    requires Standard(u) && ValidateArgumentValue(u, a).Some?
    ensures var v := ValidateArgumentValue(u, a).value;
      && v != [] && NoBraces(v)
      && NoSpace(BeforeFinalLineFeed(v))
      && (HasForbidden(v) <==> '\n' in v)
      && ('\n' !in v ==> NoSpace(v))
  {
    var v := ValidateArgumentValue(u, a).value;
    var body := BeforeFinalLineFeed(v);
    assert forall i | 0 <= i < |body| :: IsValueChar(u, body[i]) by {
      if a.Integer? {
        DecimalHasDigits(a.n);
        assert body == v;
      }
    }
    assert forall i | 0 <= i < |body| :: !IsForbidden(body[i]) && !IsSpace(body[i]);
    assert v == body || v == body + ['\n'];
  }

  // Such a value: it passes the pattern and then fails the final check.
  lemma FinalLineFeedPasses(u: Unicode)
    requires Standard(u)
    ensures ValidateArgumentValue(u, Str("a\n")) == Some("a\n") && HasForbidden("a\n")
  {
    assert BeforeFinalLineFeed("a\n") == "a";
    assert IsForbidden("a\n"[1]);
  }
}

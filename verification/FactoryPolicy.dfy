// The binaries the tool factory ships with (ALLOWED_BINARIES of
// app/tool_factory/validation.py).
module FactoryPolicy {
  import opened Wrappers
  import opened Text
  import opened Template
  import opened Validation
  import opened CommandBuilder

  function AllowedBinaries(): map<string, seq<string>> {
    map["docker" := ["ps", "images", "inspect", "stats", "logs", "version"],
        "kubectl" := ["get", "cluster-info", "version"],
        "systemctl" := ["status"],
        "grep" := [], "head" := [], "tail" := [], "cat" := [], "find" := [], "stat" := [], "df" := [],
        "free" := [], "uptime" := [], "nproc" := [], "ps" := [], "wc" := [], "du" := []]
  }

  // Whatever the denied tokens, no allowed binary holds a brace.
  lemma ShippedBinariesArePlain(denied: seq<string>)
    ensures PlainBinaries(Policy(AllowedBinaries(), denied))
  {
    assert NoBraces("docker");
    assert NoBraces("kubectl");
    assert NoBraces("systemctl");
    assert NoBraces("grep");
    assert NoBraces("head");
    assert NoBraces("tail");
    assert NoBraces("cat");
    assert NoBraces("find");
    assert NoBraces("stat");
    assert NoBraces("df");
    assert NoBraces("free");
    assert NoBraces("uptime");
    assert NoBraces("nproc");
    assert NoBraces("ps");
    assert NoBraces("wc");
    assert NoBraces("du");
  }

  // Nor does an allowed subcommand.
  lemma ShippedSubcommandsArePlain(denied: seq<string>)
    ensures PlainSubcommands(Policy(AllowedBinaries(), denied))
  {
    assert NoBraces("ps") && NoBraces("images") && NoBraces("inspect") && NoBraces("stats");
    assert NoBraces("logs") && NoBraces("version") && NoBraces("get") && NoBraces("cluster-info");
    assert NoBraces("status");
  }

  // ---- A template that names no subcommand ----

  lemma {:induction false} TokenizePlain(x: string, rest: string)
    requires NoBraces(x)
    ensures Tokenize(x + rest) == Literals(x) + Tokenize(rest)
  {
    if x == [] {
      assert x + rest == rest;
    } else {
      assert (x + rest)[1..] == x[1..] + rest && x[0] in x && NoBraces(x[1..]);
      TokenizePlain(x[1..], rest);
      assert Literals(x) == [Literal(x[0])] + Literals(x[1..]);
    }
  }

  lemma {:induction false} MaskedPlain(x: string, ts: seq<Token>)
    ensures Masked(Literals(x) + ts) == x + Masked(ts)
  {
    if x == [] {
      assert Literals(x) + ts == ts;
    } else {
      var all := Literals(x) + ts;
      MaskedPlain(x[1..], ts);
      assert all[0] == Literal(x[0]) && all[1..] == Literals(x[1..]) + ts;
      assert Masked(all) == [x[0]] + (x[1..] + Masked(ts));
    }
  }

  lemma TwoWords(a: string, b: string)
    requires a != [] && b != [] && NoSpace(a) && NoSpace(b)
    ensures Split(a + ([' '] + b)) == [a, b]
  {
    SplitSkipsWord(a, [' '] + b, []);
    assert [] + a == a && [] + b == b && b + [] == b;
    SplitAtSpace(' ', b, a);
    SplitSkipsWord(b, [], []);
  }

  lemma StripNothing(s: string)
    requires s != [] && !IsSpace(s[0]) && !IsSpace(s[|s| - 1])
    ensures Strip(s) == s
  {}

  lemma SlotAlone(name: string)
    requires IsName(name)
    ensures Tokenize(Slot(name)) == [Hole(name)] && NoSpace(Slot(name)) && IsSlot(Slot(name))
  {
    TokenizeSlot(name, []);
    assert Slot(name) + [] == Slot(name);
    assert forall i | 0 <= i < |name| :: IsNameChar(name[i]);
  }

  // A binary followed by nothing but one placeholder, and that template filled.
  function OpenTemplate(binary: string, name: string): string { binary + ([' '] + Slot(name)) }

  lemma {:induction false} NamesArePlain(name: string)
    requires IsName(name)
    ensures NoBraces(name) && NoSpace(name) && forall c <- name :: !IsShellMeta(c)
  {
    assert forall i | 0 <= i < |name| :: IsNameChar(name[i]);
  }

  // What the scans see of it.
  lemma OpenTemplateScans(binary: string, name: string)
    requires IsName(binary) && IsName(name)
    ensures var template := OpenTemplate(binary, name);
      && Holes(Tokenize(template)) == [name] && Masked(Tokenize(template)) == (binary + [' ']) + "PH"
      && Split(template) == [binary, Slot(name)] && IsSlot(Slot(name)) && Strip(template) == template
  {
    var lead := binary + [' '];
    NamesArePlain(binary);
    SlotAlone(name);
    assert OpenTemplate(binary, name) == lead + Slot(name);
    TokenizePlain(lead, Slot(name));
    HolesAppend(Literals(lead), [Hole(name)]);
    NoHoles(Literals(lead));
    MaskedPlain(lead, [Hole(name)]);
    assert [Hole(name)][1..] == [];
    TwoWords(binary, Slot(name));
    StripNothing(OpenTemplate(binary, name));
  }

  lemma NamesHaveNoMeta(binary: string)
    requires IsName(binary)
    ensures !HasShellMeta((binary + [' ']) + "PH")
  {
    NamesArePlain(binary);
    AnyAppend(binary + [' '], "PH", IsShellMeta);
  }

  lemma SlotIsNoSubcommand(policy: Policy, binary: string, name: string)
    requires IsName(name) && binary in policy.binaries
    ensures SubcommandAllowed(policy, [binary, Slot(name)])
  {
    SlotAlone(name);
    assert [binary, Slot(name)][1..] == [Slot(name)];
  }

  lemma OpenTemplateIsValid(u: Unicode, policy: Policy, binary: string, name: string)
    requires IsName(binary) && IsName(name) && binary in policy.binaries
    requires |OpenTemplate(binary, name)| <= MAX_TEMPLATE_LENGTH
    requires forall i | 0 <= i < |policy.denied| :: !Contains(u.lower(OpenTemplate(binary, name)), policy.denied[i])
    ensures ValidTemplate(u, policy, OpenTemplate(binary, name), {name})
  {
    OpenTemplateScans(binary, name);
    NamesHaveNoMeta(binary);
    SlotIsNoSubcommand(policy, binary, name);
  }

  lemma OneArgument(u: Unicode, name: string, value: string)
    requires SafeValue(u, value)
    ensures var arguments := map[name := Str(value)];
      FirstBad(u, [name], arguments).None? && name in Values(u, arguments) && Values(u, arguments)[name] == value
  {
    assert [name][1..] == [];
  }

  lemma OneSlotReplaced(binary: string, name: string, values: map<string, string>)
    requires IsName(binary) && IsName(name) && name in values
    ensures ReplaceSlots(OpenTemplate(binary, name), [name], values) == binary + ([' '] + values[name])
  {
    var lead, value := binary + [' '], values[name];
    NamesArePlain(binary);
    assert OpenTemplate(binary, name) == lead + Slot(name) && binary + ([' '] + value) == lead + value;
    ReplaceSkips(lead, Slot(name), Slot(name), value);
    ReplaceOnSlot(name, [], name, value);
    assert Slot(name) + [] == Slot(name) && value + [] == value && [name][1..] == [];
  }

  // What the words of such a command are, and that the rule on subcommands refuses them.
  lemma UnlistedWord(policy: Policy, binary: string, value: string)
    requires IsName(binary) && IsName(value)
    requires binary in policy.binaries && policy.binaries[binary] != [] && value !in policy.binaries[binary]
    ensures var command := binary + ([' '] + value);
      !HasForbidden(command) && Split(command) == [binary, value] && !SubcommandAllowed(policy, [binary, value])
  {
    NamesArePlain(binary);
    NamesArePlain(value);
    AnyAppend(binary, [' '] + value, IsForbidden);
    TwoWords(binary, value);
    assert [binary, value][1..] == [value];
    assert !IsSlot(value);
  }

  // Such a template names no subcommand and is accepted under any list of them; the argument
  // then brings in any word.
  lemma SubcommandEvaded(u: Unicode, policy: Policy, binary: string, name: string, value: string)
    requires IsName(binary) && IsName(name) && IsName(value) && SafeValue(u, value)
    requires binary in policy.binaries && policy.binaries[binary] != [] && value !in policy.binaries[binary]
    requires |OpenTemplate(binary, name)| <= MAX_TEMPLATE_LENGTH
    requires forall i | 0 <= i < |policy.denied| :: !Contains(u.lower(OpenTemplate(binary, name)), policy.denied[i])
    ensures var template, arguments := OpenTemplate(binary, name), map[name := Str(value)];
      && ValidTemplate(u, policy, template, {name}) && FirstBad(u, Holes(Tokenize(template)), arguments).None?
      && var command := Substituted(u, template, arguments);
         !HasForbidden(command) && Split(command) == [binary, value] && !SubcommandAllowed(policy, [binary, value])
  {
    OpenTemplateIsValid(u, policy, binary, name);
    OneArgument(u, name, value);
    OpenTemplateScans(binary, name);
    OneSlotReplaced(binary, name, Values(u, map[name := Str(value)]));
    UnlistedWord(policy, binary, value);
  }

  lemma ExecIsUnlisted(u: Unicode)
    requires Standard(u)
    ensures IsName("docker") && IsName("cmd") && IsName("exec") && SafeValue(u, "exec")
    ensures AllowedBinaries()["docker"] != [] && "exec" !in AllowedBinaries()["docker"]
  {}

  // With the shipped binaries: `docker {cmd}` filled with `exec`.
  lemma ExecEvades(u: Unicode, denied: seq<string>)
    requires Standard(u) && forall i | 0 <= i < |denied| :: !Contains(u.lower("docker {cmd}"), denied[i])
    ensures var policy, template, arguments := Policy(AllowedBinaries(), denied), "docker {cmd}", map["cmd" := Str("exec")];
      && ValidTemplate(u, policy, template, {"cmd"}) && FirstBad(u, Holes(Tokenize(template)), arguments).None?
      && var command := Substituted(u, template, arguments);
         !HasForbidden(command) && Split(command) == ["docker", "exec"] && !SubcommandAllowed(policy, Split(command))
  {
    ExecIsUnlisted(u);
    assert OpenTemplate("docker", "cmd") == "docker {cmd}";
    SubcommandEvaded(u, Policy(AllowedBinaries(), denied), "docker", "cmd", "exec");
  }
}

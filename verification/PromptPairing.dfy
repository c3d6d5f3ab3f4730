// Where the prompt bound of app/context_budget.py may cut the conversation that the tool
// loop of app/agent.py builds: a tool result must not lose the call it answers.
module PromptPairing {
  import opened Wrappers
  import opened ContextBudget
  import AgentLoop

  // Every tool result follows the assistant message with its call, or another result of it.
  predicate Paired(roles: seq<Role>) {
    forall i | 0 <= i < |roles| && roles[i] == Tool :: i > 0 && (roles[i - 1] == Assistant || roles[i - 1] == Tool)
  }

  function Roles(messages: seq<Message>): (roles: seq<Role>)
    ensures |roles| == |messages| && forall i | 0 <= i < |roles| :: roles[i] == messages[i].role
  {
    seq(|messages|, i requires 0 <= i < |messages| => messages[i].role)
  }

  // ---- The conversation of the loop ----

  function RoleOf(m: AgentLoop.Message): Role {
    match m
    case Earlier(_) => User
    case Assistant(_) => Role.Assistant
    case ToolResult(_, _) => Tool
  }

  function LoopRoles(history: seq<AgentLoop.Message>): (roles: seq<Role>)
    ensures |roles| == |history| && forall i | 0 <= i < |roles| :: roles[i] == RoleOf(history[i])
  {
    seq(|history|, i requires 0 <= i < |history| => RoleOf(history[i]))
  }

  lemma {:induction false} MergeGivesResults(pending: seq<AgentLoop.Pending>, results: seq<int>)
    ensures forall i | 0 <= i < |AgentLoop.Merge(pending, results).0| :: AgentLoop.Merge(pending, results).0[i].ToolResult?
  {
    if pending != [] {
      if pending[0].preset.Some? {
        MergeGivesResults(pending[1..], results);
      } else if results != [] {
        MergeGivesResults(pending[1..], results[1..]);
      }
    }
  }

  lemma ResultsStayPaired(history: seq<AgentLoop.Message>, reply: AgentLoop.Reply, results: seq<AgentLoop.Message>)
    requires Paired(LoopRoles(history)) && forall i | 0 <= i < |results| :: results[i].ToolResult?
    ensures Paired(LoopRoles((history + [AgentLoop.Assistant(reply)]) + results))
  {}

  lemma IterationStaysPaired(st: AgentLoop.State, iteration: nat, w: AgentLoop.World)
    requires Paired(LoopRoles(st.history))
    ensures Paired(LoopRoles(AgentLoop.Iterate(st, iteration, w).0.history))
  {
    var reply := w.reply(iteration);
    if reply.calls == [] {
      ResultsStayPaired(st.history, reply, []);
      assert (st.history + [AgentLoop.Assistant(reply)]) + [] == st.history + [AgentLoop.Assistant(reply)];
    } else {
      var batch := AgentLoop.ClassifyAll(reply.calls, st.called, w.allowed);
      var results := AgentLoop.Results(w, iteration, |AgentLoop.ToExecute(batch.runnable)|);
      MergeGivesResults(batch.pending, results);
      ResultsStayPaired(st.history, reply, AgentLoop.Merge(batch.pending, results).0);
    }
  }

  // The loop keeps every result behind its call: in its last history, and so in every
  // earlier one, which is a prefix of it.
  lemma {:induction false} RunStaysPaired(st: AgentLoop.State, iteration: nat, content: string, w: AgentLoop.World)
    requires iteration <= AgentLoop.MAX_TOOL_ITERATIONS && Paired(LoopRoles(st.history))
    ensures var last := AgentLoop.RunFrom(st, iteration, content, w).0;
      st.history <= last.history && Paired(LoopRoles(last.history))
    decreases AgentLoop.MAX_TOOL_ITERATIONS - iteration
  {
    if iteration < AgentLoop.MAX_TOOL_ITERATIONS {
      IterationStaysPaired(st, iteration, w);
      AgentLoop.IterationExtends(st, iteration, w);
      var (next, ending) := AgentLoop.Iterate(st, iteration, w);
      if ending.None? {
        RunStaysPaired(next, iteration + 1, w.reply(iteration).content, w);
      }
    }
  }

  // ---- The prompt cut from it ----

  // The place in the conversation from which on the prompt keeps everything.
  function KeptFrom(short: seq<Message>, maxMessages: int, fits: seq<Message> -> bool): (n: nat)
    requires short != [] && maxMessages >= 1 + |Front(short)|
    ensures n <= |short|
  {
    var from := FirstKept(short, maxMessages);
    if Lead(short).None? && Pinned(short, from, fits) then
      var m := FirstSystem(short, from);
      Fit(Some(short[m]), short, m + 1, fits)
    else Fit(Lead(short), short, from, fits)
  }

  lemma EndPaired(head: Option<Message>, short: seq<Message>, n: nat)
    requires n <= |short| && Paired(Roles(short)) && (head.Some? ==> IsSystem(head.value))
    ensures Paired(Roles(Behind(head, short, n))) <==> n == |short| || short[n].role != Tool
  {
    var roles, all := Roles(Behind(head, short, n)), Roles(short);
    var d := if head.Some? then 1 else 0;
    if n < |short| && short[n].role == Tool {
      assert roles[d] == Tool;
      assert d == 1 ==> roles[d - 1] == System;
    } else {
      forall i | 0 <= i < |roles| && roles[i] == Tool ensures i > 0 && (roles[i - 1] == Assistant || roles[i - 1] == Tool) {
        var j := n + i - d;
        assert roles[i] == all[j];
        assert roles[i - 1] == all[j - 1];
      }
    }
  }

  lemma ShortenKeepsRoles(history: seq<Message>, resultChars: nat)
    ensures Roles(ShortenAll(history, resultChars)) == Roles(history)
  {}

  // Bounding keeps every result behind its call exactly when the first message it keeps
  // behind the system message is not itself a tool result.
  lemma PromptPairedIff(history: seq<Message>, maxMessages: int, resultChars: nat, fits: seq<Message> -> bool)
    requires history != [] && maxMessages >= 1 + |Front(history)| && Paired(Roles(history))
    ensures var n := KeptFrom(ShortenAll(history, resultChars), maxMessages, fits);
      Paired(Roles(Bounded(history, maxMessages, resultChars, fits))) <==> n == |history| || history[n].role != Tool
  {
    var short := ShortenAll(history, resultChars);
    var n := KeptFrom(short, maxMessages, fits);
    BoundedIsPrompt(history, maxMessages, resultChars, fits);
    ShortenKeepsRoles(history, resultChars);
    var from := FirstKept(short, maxMessages);
    if Lead(short).None? && Pinned(short, from, fits) {
      EndPaired(Some(short[FirstSystem(short, from)]), short, n);
    } else {
      EndPaired(Lead(short), short, n);
    }
  }

  // The failing case: one call with two results and room for one message.
  lemma ResultLosesItsCall(question: Message, call: Message, result: Message, resultChars: nat, fits: seq<Message> -> bool)
    requires question.role == User && call.role == Assistant && result.role == Tool
    ensures Paired(Roles([question, call, result]))
    ensures Bounded([question, call, result], 1, resultChars, fits) == [Shorten(result, resultChars)]
    ensures !Paired(Roles([Shorten(result, resultChars)]))
  {
    var short := ShortenAll([question, call, result], resultChars);
    assert short[2..] == [Shorten(result, resultChars)];
    assert Roles([Shorten(result, resultChars)])[0] == Tool;
  }
}

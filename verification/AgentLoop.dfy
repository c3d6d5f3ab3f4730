// The tool loop of Agent.run in app/agent.py: the model's calls are filtered, executed in a
// batch (in parallel when all are read-only), and their results are merged back into the
// conversation in call order.
module AgentLoop {
  import opened Wrappers

  const MAX_TOOL_ITERATIONS := 8

  // `text` is str(arguments); the flag says that the arguments ask for an immediate restart.
  datatype Arguments = Arguments(text: string, immediateRestart: bool)

  datatype Call = Call(id: string, name: string, arguments: Arguments)

  datatype Signature = Signature(name: string, text: string)

  function Sign(c: Call): Signature {
    Signature(c.name, c.arguments.text)
  }

  datatype Outcome = Executed(result: int) | DuplicateSkipped | NotRegistered

  datatype Reply = Reply(content: string, calls: seq<Call>)

  datatype Message = Earlier(text: string) | Assistant(reply: Reply) | ToolResult(call: Call, outcome: Outcome)

  // A call with the result it already has, if it is not to be executed.
  datatype Pending = Pending(call: Call, preset: Option<Outcome>)

  datatype Batch = Batch(pending: seq<Pending>, runnable: seq<Call>, called: set<Signature>)

  predicate Registered(name: string, allowed: Option<set<string>>) {
    allowed.None? || name in allowed.value
  }

  function Classify(c: Call, b: Batch, allowed: Option<set<string>>): Batch {
    if Sign(c) in b.called then b.(pending := b.pending + [Pending(c, Some(DuplicateSkipped))])
    else
      var called := b.called + {Sign(c)};
      if !Registered(c.name, allowed) then
        Batch(b.pending + [Pending(c, Some(NotRegistered))], b.runnable, called)
      else
        Batch(b.pending + [Pending(c, None)], b.runnable + [c], called)
  }

  function ClassifyAll(calls: seq<Call>, called: set<Signature>, allowed: Option<set<string>>): Batch {
    if calls == [] then Batch([], [], called)
    else Classify(calls[|calls| - 1], ClassifyAll(calls[..|calls| - 1], called, allowed), allowed)
  }

  predicate IsImmediateRestart(c: Call) {
    c.name == "run_diagnostic" && c.arguments.immediateRestart
  }

  // The first immediate restart among the runnable calls.
  function FindRestart(runnable: seq<Call>): (i: Option<nat>)
    ensures i.Some? ==> i.value < |runnable| && IsImmediateRestart(runnable[i.value])
  {
    if runnable == [] then None
    else if IsImmediateRestart(runnable[0]) then Some(0)
    else
      var i := FindRestart(runnable[1..]);
      if i.Some? then Some(i.value + 1) else None
  }

  // An immediate restart is executed alone.
  function ToExecute(runnable: seq<Call>): seq<Call> {
    var restart := FindRestart(runnable);
    if restart.Some? then [runnable[restart.value]] else runnable
  }

  // The tool messages, and whether the executed results sufficed; running out of them
  // raises StopIteration out of the loop.
  function Merge(pending: seq<Pending>, results: seq<int>): (seq<Message>, bool) {
    if pending == [] then ([], true)
    else
      var p := pending[0];
      if p.preset.Some? then
        var (rest, ok) := Merge(pending[1..], results);
        ([ToolResult(p.call, p.preset.value)] + rest, ok)
      else if results == [] then ([], false)
      else
        var (rest, ok) := Merge(pending[1..], results[1..]);
        ([ToolResult(p.call, Executed(results[0]))] + rest, ok)
  }

  // ---- One iteration ----

  // The outside: the model's reply of each iteration, and what the i-th executed call of
  // an iteration returns.
  datatype World = World(reply: nat -> Reply, tool: (nat, nat) -> int, allowed: Option<set<string>>)

  datatype State = State(history: seq<Message>, called: set<Signature>, executed: seq<Call>)

  datatype Ending = Answered(content: string) | Restarted(result: int) | LimitReached(content: string) | Raised

  function Results(w: World, iteration: nat, n: nat): (r: seq<int>)
    ensures |r| == n && forall i | 0 <= i < n :: r[i] == w.tool(iteration, i)
  {
    seq(n, i requires 0 <= i < n => w.tool(iteration, i))
  }

  function Iterate(st: State, iteration: nat, w: World): (State, Option<Ending>) {
    var reply := w.reply(iteration);
    var history := st.history + [Assistant(reply)];
    if reply.calls == [] then (st.(history := history), Some(Answered(reply.content)))
    else
      var batch := ClassifyAll(reply.calls, st.called, w.allowed);
      var run := ToExecute(batch.runnable);
      var results := Results(w, iteration, |run|);
      var (messages, ok) := Merge(batch.pending, results);
      var next := State(history + messages, batch.called, st.executed + run);
      if !ok then (next, Some(Raised))
      else if FindRestart(batch.runnable).Some? then (next, Some(Restarted(results[0])))
      else (next, None)
  }

  // The rest of the loop from an iteration on; the last component counts the model calls.
  function RunFrom(st: State, iteration: nat, content: string, w: World): (State, Ending, nat)
    requires iteration <= MAX_TOOL_ITERATIONS
    decreases MAX_TOOL_ITERATIONS - iteration
  {
    if iteration == MAX_TOOL_ITERATIONS then (st, LimitReached(content), iteration)
    else
      var (next, ending) := Iterate(st, iteration, w);
      if ending.Some? then (next, ending.value, iteration + 1)
      else RunFrom(next, iteration + 1, w.reply(iteration).content, w)
  }

  class Conversation {
    var history: seq<Message>

    constructor (history: seq<Message>)
      ensures this.history == history
    {
      this.history := history;
    }
  }

  // The order in which the workers of a pool finish: every index once.
  ghost predicate Schedule(order: seq<nat>, n: nat) {
    && |order| == n
    && (forall i | 0 <= i < n :: order[i] < n)
    && (forall i | 0 <= i < n :: i in order)
  }

  // Executing a batch in any order gives each call the result of its own execution, at the
  // index it has in the batch.
  method ExecuteBatch(w: World, iteration: nat, n: nat, order: seq<nat>) returns (results: seq<int>)
    requires Schedule(order, n)
    ensures results == Results(w, iteration, n)
  {
    var slots := new int[n](_ => 0);
    for k := 0 to n
      invariant forall j | 0 <= j < k :: slots[order[j]] == w.tool(iteration, order[j])
    {
      slots[order[k]] := w.tool(iteration, order[k]);
    }
    results := slots[..];
    forall i | 0 <= i < n ensures results[i] == w.tool(iteration, i) {
      assert i in order;
      var j :| 0 <= j < n && order[j] == i;
    }
  }

  method Filter(calls: seq<Call>, called: set<Signature>, allowed: Option<set<string>>) returns (batch: Batch)
    ensures batch == ClassifyAll(calls, called, allowed)
  {
    batch := Batch([], [], called);
    for i := 0 to |calls|
      invariant batch == ClassifyAll(calls[..i], called, allowed)
    {
      assert calls[..i + 1][..i] == calls[..i];
      batch := Classify(calls[i], batch, allowed);
    }
    assert calls[..|calls|] == calls;
  }

  method AppendResults(c: Conversation, pending: seq<Pending>, results: seq<int>) returns (ok: bool)
    modifies c
    ensures var (messages, merged) := Merge(pending, results);
      c.history == old(c.history) + messages && ok == merged
  {
    var next := 0;
    assert pending[0..] == pending && results[0..] == results;
    for i := 0 to |pending|
      invariant next <= |results|
      invariant c.history + Merge(pending[i..], results[next..]).0 == old(c.history) + Merge(pending, results).0
      invariant Merge(pending[i..], results[next..]).1 == Merge(pending, results).1
    {
      var p := pending[i];
      assert pending[i..][0] == p && pending[i..][1..] == pending[i + 1..];
      if p.preset.Some? {
        c.history := c.history + [ToolResult(p.call, p.preset.value)];
      } else if next == |results| {
        assert c.history + [] == c.history;
        return false;
      } else {
        assert results[next..][0] == results[next] && results[next..][1..] == results[next + 1..];
        c.history := c.history + [ToolResult(p.call, Executed(results[next]))];
        next := next + 1;
      }
    }
    assert c.history + [] == c.history;
    return true;
  }

  // `executed` lists the calls handed to the tools; `chats` counts the calls of the model.
  method RunToolLoop(c: Conversation, w: World, schedule: (nat, nat) -> seq<nat>)
    returns (ending: Ending, executed: seq<Call>, chats: nat)
    requires forall i, n :: Schedule(schedule(i, n), n)
    modifies c
    ensures var (st, e, k) := RunFrom(State(old(c.history), {}, []), 0, "", w);
      c.history == st.history && executed == st.executed && ending == e && chats == k
  {
    var content := "";
    var called: set<Signature> := {};
    executed, chats := [], 0;
    for iteration := 0 to MAX_TOOL_ITERATIONS
      invariant chats == iteration
      invariant RunFrom(State(c.history, called, executed), iteration, content, w)
             == RunFrom(State(old(c.history), {}, []), 0, "", w)
    {
      ghost var st := State(c.history, called, executed);
      var reply := w.reply(iteration);
      chats := chats + 1;
      content := reply.content;
      c.history := c.history + [Assistant(reply)];
      if reply.calls == [] {
        return Answered(content), executed, chats;
      }
      var batch := Filter(reply.calls, called, w.allowed);
      var run := ToExecute(batch.runnable);
      var results := ExecuteBatch(w, iteration, |run|, schedule(iteration, |run|));
      called, executed := batch.called, executed + run;
      var ok := AppendResults(c, batch.pending, results);
      if !ok {
        return Raised, executed, chats;
      }
      if FindRestart(batch.runnable).Some? {
        return Restarted(results[0]), executed, chats;
      }
      assert Iterate(st, iteration, w) == (State(c.history, called, executed), None);
    }
    return LimitReached(content), executed, chats;
  }

  // ---- Pairing ----

  // The number of calls to execute among the first i.
  function Rank(pending: seq<Pending>, i: nat): nat
    requires i <= |pending|
  {
    if i == 0 then 0 else Rank(pending, i - 1) + if pending[i - 1].preset.None? then 1 else 0
  }

  // The call repeats one made before in the run or earlier in the same reply.
  predicate Repeats(calls: seq<Call>, called: set<Signature>, i: nat)
    requires i < |calls|
  {
    Sign(calls[i]) in called || exists j | 0 <= j < i :: Sign(calls[j]) == Sign(calls[i])
  }

  function PresetFor(calls: seq<Call>, called: set<Signature>, allowed: Option<set<string>>, i: nat): Option<Outcome>
    requires i < |calls|
  {
    if Repeats(calls, called, i) then Some(DuplicateSkipped)
    else if !Registered(calls[i].name, allowed) then Some(NotRegistered)
    else None
  }

  lemma {:induction false} Classified(calls: seq<Call>, called: set<Signature>, allowed: Option<set<string>>)
    ensures var b := ClassifyAll(calls, called, allowed);
      && |b.pending| == |calls|
      && (forall s :: s in b.called <==> s in called || exists j | 0 <= j < |calls| :: Sign(calls[j]) == s)
      && (forall i | 0 <= i < |calls| :: b.pending[i] == Pending(calls[i], PresetFor(calls, called, allowed, i)))
  {
    if calls != [] {
      var n := |calls| - 1;
      var before := calls[..n];
      Classified(before, called, allowed);
      var earlier, b := ClassifyAll(before, called, allowed), ClassifyAll(calls, called, allowed);
      forall i | 0 <= i < n ensures b.pending[i] == Pending(calls[i], PresetFor(calls, called, allowed, i)) {
        assert earlier.pending[i] == b.pending[i] && before[i] == calls[i];
        assert PresetFor(before, called, allowed, i) == PresetFor(calls, called, allowed, i) by {
          assert forall j | 0 <= j < i :: before[j] == calls[j];
        }
      }
      assert forall j | 0 <= j < n :: before[j] == calls[j];
      assert Sign(calls[n]) in earlier.called <==> Repeats(calls, called, n);
      forall s ensures s in b.called <==> s in called || exists j | 0 <= j < |calls| :: Sign(calls[j]) == s {
        assert s in b.called <==> s in earlier.called || s == Sign(calls[n]);
      }
    }
  }

  lemma {:induction false} RankSame(p: seq<Pending>, q: seq<Pending>, i: nat)
    requires i <= |p| <= |q| && p == q[..|p|]
    ensures Rank(p, i) == Rank(q, i)
  {
    if i > 0 { RankSame(p, q, i - 1); }
  }

  // The runnable calls are the pending ones without a preset, in order.
  ghost predicate RunnableRanked(pending: seq<Pending>, runnable: seq<Call>) {
    && |runnable| == Rank(pending, |pending|)
    && forall i | 0 <= i < |pending| && pending[i].preset.None? ::
         Rank(pending, i) < |runnable| && runnable[Rank(pending, i)] == pending[i].call
  }

  lemma RankedExtends(pending: seq<Pending>, runnable: seq<Call>, p: Pending)
    requires RunnableRanked(pending, runnable)
    ensures RunnableRanked(pending + [p], runnable + if p.preset.None? then [p.call] else [])
  {
    var longer := pending + [p];
    forall i | 0 <= i <= |pending| ensures Rank(longer, i) == Rank(pending, i) {
      RankSame(pending, longer, i);
    }
  }

  lemma {:induction false} RunnableByRank(calls: seq<Call>, called: set<Signature>, allowed: Option<set<string>>)
    ensures var b := ClassifyAll(calls, called, allowed);
      |b.pending| == |calls| && RunnableRanked(b.pending, b.runnable)
  {
    if calls != [] {
      var n := |calls| - 1;
      RunnableByRank(calls[..n], called, allowed);
      var earlier, b := ClassifyAll(calls[..n], called, allowed), ClassifyAll(calls, called, allowed);
      RankedExtends(earlier.pending, earlier.runnable, b.pending[n]);
      assert earlier.runnable + [] == earlier.runnable;
    }
  }

  lemma {:induction false} RankTail(pending: seq<Pending>, i: nat)
    requires 0 < i <= |pending|
    ensures Rank(pending, i) == Rank(pending[1..], i - 1) + if pending[0].preset.None? then 1 else 0
  {
    if i > 1 { RankTail(pending, i - 1); }
  }

  // With as many results as calls to execute, every call gets one message, in call order,
  // and an executed call gets the result of its rank.
  lemma {:induction false} MergePairs(pending: seq<Pending>, results: seq<int>)
    requires |results| >= Rank(pending, |pending|)
    ensures var (messages, ok) := Merge(pending, results);
      ok && |messages| == |pending| && forall i | 0 <= i < |pending| ::
        && (pending[i].preset.None? ==> Rank(pending, i) < |results|)
        && messages[i] == ToolResult(pending[i].call,
             if pending[i].preset.Some? then pending[i].preset.value else Executed(results[Rank(pending, i)]))
  {
    if pending != [] {
      RankTail(pending, |pending|);
      var rest := if pending[0].preset.Some? then results else results[1..];
      MergePairs(pending[1..], rest);
      forall i | 0 < i < |pending| ensures pending[i].preset.None? ==>
          Rank(pending, i) < |results| && results[Rank(pending, i)] == rest[Rank(pending[1..], i - 1)]
      {
        RankTail(pending, i);
        assert pending[i] == pending[1..][i - 1];
      }
    }
  }

  // The tool message that answers the i-th call of a reply.
  function AnswerTo(st: State, iteration: nat, w: World, i: nat): Message
    requires i < |w.reply(iteration).calls|
  {
    var calls := w.reply(iteration).calls;
    var preset := PresetFor(calls, st.called, w.allowed, i);
    Classified(calls, st.called, w.allowed);
    ToolResult(calls[i], if preset.Some? then preset.value
                         else Executed(w.tool(iteration, Rank(ClassifyAll(calls, st.called, w.allowed).pending, i))))
  }

  lemma MergedAnswers(st: State, iteration: nat, w: World)
    requires w.reply(iteration).calls != []
    ensures var calls := w.reply(iteration).calls;
      var batch := ClassifyAll(calls, st.called, w.allowed);
      var (messages, ok) := Merge(batch.pending, Results(w, iteration, |batch.runnable|));
      && |batch.pending| == |calls| == |messages| && ok
      && forall i | 0 <= i < |calls| :: messages[i] == AnswerTo(st, iteration, w, i)
  {
    var calls := w.reply(iteration).calls;
    Classified(calls, st.called, w.allowed);
    RunnableByRank(calls, st.called, w.allowed);
    var batch := ClassifyAll(calls, st.called, w.allowed);
    MergePairs(batch.pending, Results(w, iteration, |batch.runnable|));
  }

  // In an iteration without an immediate restart the reply is followed by exactly one tool
  // message a call, in call order; a repeated or unregistered call is answered without
  // being executed, and an executed call is answered by the result of its own execution.
  lemma IterationPairs(st: State, iteration: nat, w: World)
    requires w.reply(iteration).calls != []
    requires FindRestart(ClassifyAll(w.reply(iteration).calls, st.called, w.allowed).runnable).None?
    ensures var calls := w.reply(iteration).calls;
      var batch := ClassifyAll(calls, st.called, w.allowed);
      var (next, ending) := Iterate(st, iteration, w);
      var base := |st.history| + 1;
      && ending == None
      && next.executed == st.executed + batch.runnable
      && |batch.pending| == |calls|
      && |next.history| == base + |calls|
      && next.history[..base] == st.history + [Assistant(w.reply(iteration))]
      && forall i | 0 <= i < |calls| :: next.history[base + i] == AnswerTo(st, iteration, w, i)
  {
    MergedAnswers(st, iteration, w);
  }

  // The rank by which an executed call is answered is its own place in the batch.
  lemma RankIsOwnPlace(st: State, iteration: nat, w: World, i: nat)
    requires i < |w.reply(iteration).calls|
    requires PresetFor(w.reply(iteration).calls, st.called, w.allowed, i).None?
    ensures var calls := w.reply(iteration).calls;
      var batch := ClassifyAll(calls, st.called, w.allowed);
      && i < |batch.pending| && Rank(batch.pending, i) < |batch.runnable|
      && batch.runnable[Rank(batch.pending, i)] == calls[i]
  {
    var calls := w.reply(iteration).calls;
    Classified(calls, st.called, w.allowed);
    RunnableByRank(calls, st.called, w.allowed);
  }

  lemma {:induction false} MergeFallsShort(pending: seq<Pending>, results: seq<int>)
    requires |results| < Rank(pending, |pending|)
    ensures !Merge(pending, results).1
  {
    if pending != [] {
      RankTail(pending, |pending|);
      if pending[0].preset.Some? {
        MergeFallsShort(pending[1..], results);
      } else if results != [] {
        MergeFallsShort(pending[1..], results[1..]);
      }
    }
  }

  // An immediate restart in the reply replaces the batch by the restart alone. The
  // iteration then ends normally exactly when no other call of the reply was to be
  // executed; otherwise the merge runs out of results.
  lemma RestartAloneOrRaised(st: State, iteration: nat, w: World)
    requires w.reply(iteration).calls != []
    requires FindRestart(ClassifyAll(w.reply(iteration).calls, st.called, w.allowed).runnable).Some?
    ensures var batch := ClassifyAll(w.reply(iteration).calls, st.called, w.allowed);
      var (next, ending) := Iterate(st, iteration, w);
      && (ending == Some(Restarted(w.tool(iteration, 0))) <==> |batch.runnable| == 1)
      && (ending == Some(Raised) <==> |batch.runnable| > 1)
      && next.executed == st.executed + [batch.runnable[FindRestart(batch.runnable).value]]
  {
    var calls := w.reply(iteration).calls;
    RunnableByRank(calls, st.called, w.allowed);
    var batch := ClassifyAll(calls, st.called, w.allowed);
    var results := Results(w, iteration, 1);
    if |batch.runnable| == 1 {
      MergePairs(batch.pending, results);
    } else {
      MergeFallsShort(batch.pending, results);
    }
  }

  // The first call to be executed is then answered with the restart's result, even when
  // it is not the restart.
  lemma {:induction false} FirstTakesResult(pending: seq<Pending>, p: nat, result: int)
    requires p < |pending| && pending[p].preset.None? && forall j | 0 <= j < p :: pending[j].preset.Some?
    ensures var messages := Merge(pending, [result]).0;
      p < |messages| && messages[p] == ToolResult(pending[p].call, Executed(result))
  {
    if p > 0 {
      FirstTakesResult(pending[1..], p - 1, result);
    }
  }

  lemma RestartMisattributed(st: State, iteration: nat, w: World) returns (p: nat)
    requires var batch := ClassifyAll(w.reply(iteration).calls, st.called, w.allowed);
      FindRestart(batch.runnable).Some? && FindRestart(batch.runnable).value > 0
    ensures var calls := w.reply(iteration).calls;
      var batch := ClassifyAll(calls, st.called, w.allowed);
      var (next, ending) := Iterate(st, iteration, w);
      var base := |st.history| + 1;
      && p < |calls| && calls[p] == batch.runnable[0] && !IsImmediateRestart(calls[p])
      && base + p < |next.history|
      && next.history[base + p] == ToolResult(calls[p], Executed(w.tool(iteration, 0)))
      && ending == Some(Raised)
  {
    var calls := w.reply(iteration).calls;
    var batch := ClassifyAll(calls, st.called, w.allowed);
    FirstRestart(batch.runnable);
    RestartAloneOrRaised(st, iteration, w);
    Classified(calls, st.called, w.allowed);
    p := FirstRunnable(calls, st.called, w.allowed);
    FirstTakesResult(batch.pending, p, w.tool(iteration, 0));
    assert Results(w, iteration, 1) == [w.tool(iteration, 0)];
  }

  lemma {:induction false} FirstRestart(runnable: seq<Call>)
    requires FindRestart(runnable).Some?
    ensures forall j | 0 <= j < FindRestart(runnable).value :: !IsImmediateRestart(runnable[j])
  {
    if !IsImmediateRestart(runnable[0]) {
      FirstRestart(runnable[1..]);
    }
  }

  // The first pending call without a preset is the first runnable one.
  lemma {:induction false} FirstRunnable(calls: seq<Call>, called: set<Signature>, allowed: Option<set<string>>)
      returns (p: nat)
    requires ClassifyAll(calls, called, allowed).runnable != []
    ensures var b := ClassifyAll(calls, called, allowed);
      && p < |b.pending| && b.pending[p] == Pending(b.runnable[0], None)
      && forall j | 0 <= j < p :: b.pending[j].preset.Some?
  {
    var before := calls[..|calls| - 1];
    var earlier := ClassifyAll(before, called, allowed);
    if earlier.runnable != [] {
      p := FirstRunnable(before, called, allowed);
    } else {
      p := |earlier.pending|;
      NoneRunnable(before, called, allowed);
    }
  }

  lemma {:induction false} NoneRunnable(calls: seq<Call>, called: set<Signature>, allowed: Option<set<string>>)
    requires ClassifyAll(calls, called, allowed).runnable == []
    ensures forall p <- ClassifyAll(calls, called, allowed).pending :: p.preset.Some?
  {
    if calls != [] {
      NoneRunnable(calls[..|calls| - 1], called, allowed);
    }
  }

  // ---- Whole runs ----

  ghost predicate DistinctSignatures(executed: seq<Call>) {
    forall i, j | 0 <= i < j < |executed| :: Sign(executed[i]) != Sign(executed[j])
  }

  ghost predicate Clean(st: State, allowed: Option<set<string>>) {
    && DistinctSignatures(st.executed)
    && (forall i | 0 <= i < |st.executed| :: Sign(st.executed[i]) in st.called)
    && (forall i | 0 <= i < |st.executed| :: Registered(st.executed[i].name, allowed))
  }

  lemma {:induction false} RunnableIsFresh(calls: seq<Call>, called: set<Signature>, allowed: Option<set<string>>)
    ensures var b := ClassifyAll(calls, called, allowed);
      && called <= b.called && DistinctSignatures(b.runnable)
      && forall i | 0 <= i < |b.runnable| ::
           && Sign(b.runnable[i]) in b.called && Sign(b.runnable[i]) !in called
           && Registered(b.runnable[i].name, allowed)
  {
    if calls != [] {
      RunnableIsFresh(calls[..|calls| - 1], called, allowed);
    }
  }

  lemma IterationStaysClean(st: State, iteration: nat, w: World)
    requires Clean(st, w.allowed)
    ensures Clean(Iterate(st, iteration, w).0, w.allowed)
  {
    RunnableIsFresh(w.reply(iteration).calls, st.called, w.allowed);
  }

  lemma IterationExtends(st: State, iteration: nat, w: World)
    ensures var next := Iterate(st, iteration, w).0;
      st.executed <= next.executed && st.history <= next.history
    ensures var ending := Iterate(st, iteration, w).1; ending.Some? ==> !ending.value.LimitReached?
  {
  }

  // Over a whole run no call is executed twice with the same name and arguments, none with
  // an unregistered name, and the model is called at most eight times.
  lemma {:induction false} RunStaysClean(st: State, iteration: nat, content: string, w: World)
    requires iteration <= MAX_TOOL_ITERATIONS && Clean(st, w.allowed)
    ensures Clean(RunFrom(st, iteration, content, w).0, w.allowed)
    ensures var (last, ending, chats) := RunFrom(st, iteration, content, w);
      && st.executed <= last.executed && st.history <= last.history
      && iteration <= chats <= MAX_TOOL_ITERATIONS
      && (ending.LimitReached? ==> chats == MAX_TOOL_ITERATIONS)
    decreases MAX_TOOL_ITERATIONS - iteration
  {
    if iteration < MAX_TOOL_ITERATIONS {
      IterationStaysClean(st, iteration, w);
      IterationExtends(st, iteration, w);
      var (next, ending) := Iterate(st, iteration, w);
      if ending.None? {
        RunStaysClean(next, iteration + 1, w.reply(iteration).content, w);
      }
    }
  }
}

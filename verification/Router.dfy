// The provider failover of app/llm_router.py: a single attempt at the first usable
// provider, then a race of all the others, whose completion order is arbitrary.
module Router {
  import opened Wrappers

  const DEFAULT_COOLDOWN_SECONDS := 30
  const MAX_COOLDOWN_SECONDS := 300

  datatype Status = Available | Cooldown | Failed

  datatype Provider = Provider(status: Status, failures: nat, cooldownUntil: real, requests: nat, totalFailures: nat)

  const FRESH_PROVIDER := Provider(Available, 0, 0.0, 0, 0)

  function Pow2(n: nat): nat {
    if n == 0 then 1 else 2 * Pow2(n - 1)
  }

  // The cooldown after the n-th consecutive failure.
  function CooldownSeconds(n: nat): int
    requires n >= 1
  {
    var c := DEFAULT_COOLDOWN_SECONDS * Pow2(n - 1);
    if c < MAX_COOLDOWN_SECONDS then c else MAX_COOLDOWN_SECONDS
  }

  predicate IsUsable(p: Provider, now: real) {
    p.status != Failed && now >= p.cooldownUntil
  }

  function AfterSuccess(p: Provider): Provider {
    p.(failures := 0, status := Available, cooldownUntil := 0.0, requests := p.requests + 1)
  }

  function AfterFailure(p: Provider, now: real, retryable: bool): Provider {
    var q := p.(failures := p.failures + 1, totalFailures := p.totalFailures + 1, requests := p.requests + 1);
    if retryable then
      q.(cooldownUntil := now + CooldownSeconds(q.failures) as real, status := Cooldown)
    else
      q.(status := Failed)
  }

  class ProviderState {
    var status: Status
    var failures: nat
    var cooldownUntil: real
    var requests: nat
    var totalFailures: nat

    constructor ()
      ensures View() == FRESH_PROVIDER
    {
      status, failures, cooldownUntil, requests, totalFailures := Available, 0, 0.0, 0, 0;
    }

    function View(): Provider
      reads this
    {
      Provider(status, failures, cooldownUntil, requests, totalFailures)
    }

    method RecordSuccess()
      modifies this
      ensures View() == AfterSuccess(old(View()))
    {
      failures := 0;
      status := Available;
      cooldownUntil := 0.0;
      requests := requests + 1;
    }

    method RecordFailure(now: real, retryable: bool)
      modifies this
      ensures View() == AfterFailure(old(View()), now, retryable)
    {
      failures := failures + 1;
      totalFailures := totalFailures + 1;
      requests := requests + 1;
      if retryable {
        cooldownUntil := now + CooldownSeconds(failures) as real;
        status := Cooldown;
      } else {
        status := Failed;
      }
    }
  }

  // ---- The search ----

  // (primary + i) % n, for indices below n.
  function Index(primary: nat, i: nat, n: nat): (idx: nat)
    requires primary < n && i < n
    ensures idx < n
  {
    if primary + i < n then primary + i else primary + i - n
  }

  // The usable, not yet tried providers in cyclic order from the primary, from step i on.
  function Candidates(ps: seq<Provider>, primary: nat, tried: set<nat>, now: real, i: nat): (r: seq<nat>)
    requires primary < |ps| && i <= |ps|
    ensures forall j | 0 <= j < |r| :: r[j] < |ps|
    decreases |ps| - i
  {
    if i == |ps| then []
    else
      var idx := Index(primary, i, |ps|);
      var rest := Candidates(ps, primary, tried, now, i + 1);
      if idx !in tried && IsUsable(ps[idx], now) then [idx] + rest else rest
  }

  // _find_next_provider
  function FindNext(ps: seq<Provider>, primary: nat, tried: set<nat>, now: real): (r: Option<nat>)
    requires primary < |ps|
    ensures r.Some? ==> r.value < |ps|
  {
    var c := Candidates(ps, primary, tried, now, 0);
    if c == [] then None else Some(c[0])
  }

  // ---- One chat ----

  datatype Reply = Answer(text: string) | Error(retryable: bool)

  datatype Result = Answered(provider: nat, text: string) | Exhausted(errors: seq<nat>)

  // Futures complete in the given order; the first answer ends the race.
  function Race(ps: seq<Provider>, order: seq<nat>, k: nat, errors: seq<nat>,
                reply: nat -> Reply, clock: nat -> real): (seq<Provider>, Result)
    requires k <= |order| && forall j | 0 <= j < |order| :: order[j] < |ps|
    decreases |order| - k
  {
    if k == |order| then (ps, Exhausted(errors))
    else
      var idx := order[k];
      match reply(idx)
      case Answer(text) => (ps[idx := AfterSuccess(ps[idx])], Answered(idx, text))
      case Error(retryable) =>
        Race(ps[idx := AfterFailure(ps[idx], clock(k + 3), retryable)], order, k + 1, errors + [idx], reply, clock)
  }

  // The readings of the clock: 0 at the first search, 1 at the first failure, 2 at the
  // search for fallbacks, and one a completion from then on.
  function Fallbacks(ps: seq<Provider>, primary: nat, first: Option<nat>, now: real): (r: seq<nat>)
    requires primary < |ps|
    ensures forall j | 0 <= j < |r| :: r[j] < |ps|
  {
    Candidates(ps, primary, if first.Some? then {first.value} else {}, now, 0)
  }

  function AfterFirst(ps: seq<Provider>, first: Option<nat>, reply: nat -> Reply, now: real): seq<Provider>
    requires first.Some? ==> first.value < |ps| && reply(first.value).Error?
  {
    if first.None? then ps
    else ps[first.value := AfterFailure(ps[first.value], now, reply(first.value).retryable)]
  }

  // The completion order of a race is any permutation of its entries.
  ghost predicate Reorders(finish: seq<nat> -> seq<nat>) {
    forall s: seq<nat> :: multiset(finish(s)) == multiset(s)
  }

  lemma SameElements(s: seq<nat>, t: seq<nat>)
    requires multiset(s) == multiset(t)
    ensures |s| == |t| && forall x :: x in s <==> x in t
    ensures forall j | 0 <= j < |t| :: t[j] in s
  {
    assert |multiset(s)| == |s| && |multiset(t)| == |t|;
    assert forall x :: x in s <==> x in multiset(s);
    assert forall x :: x in t <==> x in multiset(t);
  }

  function ChatSpec(ps: seq<Provider>, primary: nat, reply: nat -> Reply, clock: nat -> real,
                    finish: seq<nat> -> seq<nat>): (seq<Provider>, Result)
    requires primary < |ps| && Reorders(finish)
  {
    var first := FindNext(ps, primary, {}, clock(0));
    if first.Some? && reply(first.value).Answer? then
      (ps[first.value := AfterSuccess(ps[first.value])], Answered(first.value, reply(first.value).text))
    else
      var after := AfterFirst(ps, first, reply, clock(1));
      var fallbacks := Fallbacks(after, primary, first, clock(2));
      SameElements(fallbacks, finish(fallbacks));
      Race(after, finish(fallbacks), 0, if first.Some? then [first.value] else [], reply, clock)
  }

  class LLMRouter {
    const states: seq<ProviderState>
    const primary: nat

    constructor (states: seq<ProviderState>)
      requires states != []
      requires forall i, j | 0 <= i < j < |states| :: states[i] != states[j]
      ensures this.states == states && primary == 0 && Valid()
    {
      this.states, primary := states, 0;
    }

    predicate Valid() {
      primary < |states| && forall i, j | 0 <= i < j < |states| :: states[i] != states[j]
    }

    function Views(): (ps: seq<Provider>)
      reads states
      ensures |ps| == |states| && forall i | 0 <= i < |ps| :: ps[i] == states[i].View()
    {
      seq(|states|, i requires 0 <= i < |states| reads states => states[i].View())
    }

    method FindNextProvider(tried: set<nat>, now: real) returns (r: Option<nat>)
      requires Valid()
      ensures r == FindNext(Views(), primary, tried, now)
    {
      ghost var ps := Views();
      for i := 0 to |states|
        invariant Candidates(ps, primary, tried, now, 0) == Candidates(ps, primary, tried, now, i)
      {
        var idx := Index(primary, i, |states|);
        if idx !in tried && IsUsable(states[idx].View(), now) {
          return Some(idx);
        }
      }
      return None;
    }

    // The search repeated until it finds nothing more.
    method FindFallbacks(tried: set<nat>, now: real) returns (found: seq<nat>)
      requires Valid()
      ensures found == Candidates(Views(), primary, tried, now, 0)
    {
      found := [];
      ghost var ps := Views();
      var seen := tried;
      ghost var all := Candidates(ps, primary, tried, now, 0);
      ghost var left := all;
      while true
        invariant left == Candidates(ps, primary, seen, now, 0)
        invariant found + left == all
        decreases |left|
      {
        var next := FindNextProvider(seen, now);
        if next.None? {
          return found;
        }
        NextIsFirst(ps, primary, seen, now);
        MoveFirst(found, left);
        seen := seen + {next.value};
        found := found + [next.value];
        left := left[1..];
      }
    }

    method Chat(reply: nat -> Reply, clock: nat -> real, finish: seq<nat> -> seq<nat>) returns (r: Result)
      requires Valid() && Reorders(finish)
      modifies states
      ensures (Views(), r) == ChatSpec(old(Views()), primary, reply, clock, finish)
    {
      var errors := [];
      var tried: set<nat> := {};
      ghost var before := Views();
      var first := FindNextProvider(tried, clock(0));
      if first.Some? {
        var idx := first.value;
        tried := tried + {idx};
        match reply(idx) {
          case Answer(text) =>
            states[idx].RecordSuccess();
            assert Views() == before[idx := AfterSuccess(before[idx])];
            return Answered(idx, text);
          case Error(retryable) =>
            states[idx].RecordFailure(clock(1), retryable);
            errors := errors + [idx];
            assert Views() == before[idx := AfterFailure(before[idx], clock(1), retryable)];
        }
      }
      ghost var after := AfterFirst(before, first, reply, clock(1));
      assert Views() == after;
      var fallbacks := FindFallbacks(tried, clock(2));
      assert tried == if first.Some? then {first.value} else {};
      assert fallbacks == Fallbacks(after, primary, first, clock(2));
      assert errors == if first.Some? then [first.value] else [];
      SameElements(fallbacks, finish(fallbacks));
      r := RunRace(finish(fallbacks), errors, reply, clock);
      assert (Views(), r) == Race(after, finish(fallbacks), 0, errors, reply, clock);
    }

    method RunRace(order: seq<nat>, failed: seq<nat>, reply: nat -> Reply, clock: nat -> real) returns (r: Result)
      requires Valid() && forall j | 0 <= j < |order| :: order[j] < |states|
      modifies states
      ensures (Views(), r) == Race(old(Views()), order, 0, failed, reply, clock)
    {
      var errors := failed;
      for k := 0 to |order|
        invariant Race(Views(), order, k, errors, reply, clock) == Race(old(Views()), order, 0, failed, reply, clock)
      {
        var idx := order[k];
        ghost var before := Views();
        match reply(idx) {
          case Answer(text) =>
            states[idx].RecordSuccess();
            assert Views() == before[idx := AfterSuccess(before[idx])];
            return Answered(idx, text);
          case Error(retryable) =>
            states[idx].RecordFailure(clock(k + 3), retryable);
            errors := errors + [idx];
            assert Views() == before[idx := AfterFailure(before[idx], clock(k + 3), retryable)];
        }
      }
      return Exhausted(errors);
    }
  }

  lemma MoveFirst(xs: seq<nat>, ys: seq<nat>)
    requires ys != []
    ensures xs + ys == (xs + [ys[0]]) + ys[1..]
  {
  }

  // Excluding the first candidate leaves the rest of the candidates.
  lemma NextIsFirst(ps: seq<Provider>, primary: nat, tried: set<nat>, now: real)
    requires primary < |ps| && Candidates(ps, primary, tried, now, 0) != []
    ensures var c := Candidates(ps, primary, tried, now, 0);
      c[1..] == Candidates(ps, primary, tried + {c[0]}, now, 0)
  {
    DropFirst(ps, primary, tried, now, 0);
  }

  lemma {:induction false} DropFirst(ps: seq<Provider>, primary: nat, tried: set<nat>, now: real, i: nat)
    requires primary < |ps| && i <= |ps| && Candidates(ps, primary, tried, now, i) != []
    ensures var c := Candidates(ps, primary, tried, now, i);
      c[1..] == Candidates(ps, primary, tried + {c[0]}, now, i)
    decreases |ps| - i
  {
    var idx := Index(primary, i, |ps|);
    if idx !in tried && IsUsable(ps[idx], now) {
      ExcludePassed(ps, primary, tried, now, i + 1, idx);
    } else {
      DropFirst(ps, primary, tried, now, i + 1);
    }
  }

  // Steps after the i-th never come back to its index.
  lemma {:induction false} ExcludePassed(ps: seq<Provider>, primary: nat, tried: set<nat>, now: real, i: nat, idx: nat)
    requires primary < |ps| && 0 < i <= |ps| && idx < |ps|
    requires exists j | 0 <= j < i :: Index(primary, j, |ps|) == idx
    ensures Candidates(ps, primary, tried + {idx}, now, i) == Candidates(ps, primary, tried, now, i)
    decreases |ps| - i
  {
    if i < |ps| {
      var j :| 0 <= j < i && Index(primary, j, |ps|) == idx;
      IndexInjective(primary, j, i, |ps|);
      ExcludePassed(ps, primary, tried, now, i + 1, idx);
    }
  }

  lemma IndexInjective(primary: nat, i: nat, j: nat, n: nat)
    requires primary < n && i < j < n
    ensures Index(primary, i, n) != Index(primary, j, n)
  {
  }
}

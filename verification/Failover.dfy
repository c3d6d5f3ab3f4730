// What the failover router promises for every completion order of the race and over any
// number of chats.
module Failover {
  import opened Wrappers
  import opened Router

  // ---- The search ----

  // The step at which the cyclic search from the primary comes to an index.
  function StepOf(primary: nat, idx: nat, n: nat): (i: nat)
    requires primary < n && idx < n
    ensures i < n && Index(primary, i, n) == idx
  {
    if idx >= primary then idx - primary else idx + n - primary
  }

  predicate Eligible(ps: seq<Provider>, tried: set<nat>, now: real, idx: nat) {
    idx < |ps| && idx !in tried && IsUsable(ps[idx], now)
  }

  predicate Ascending(found: seq<nat>, primary: nat, n: nat)
    requires primary < n && forall j | 0 <= j < |found| :: found[j] < n
  {
    forall j, k | 0 <= j < k < |found| :: StepOf(primary, found[j], n) < StepOf(primary, found[k], n)
  }

  lemma {:induction false} CandidatesAscend(ps: seq<Provider>, primary: nat, tried: set<nat>, now: real, i: nat)
    requires primary < |ps| && i <= |ps|
    ensures var c := Candidates(ps, primary, tried, now, i);
      && Ascending(c, primary, |ps|)
      && (forall j | 0 <= j < |c| :: Eligible(ps, tried, now, c[j]) && StepOf(primary, c[j], |ps|) >= i)
    decreases |ps| - i
  {
    if i < |ps| {
      CandidatesAscend(ps, primary, tried, now, i + 1);
      assert StepOf(primary, Index(primary, i, |ps|), |ps|) == i;
    }
  }

  lemma {:induction false} CandidatesHold(ps: seq<Provider>, primary: nat, tried: set<nat>, now: real, i: nat, x: nat)
    requires primary < |ps| && i <= |ps|
    requires Eligible(ps, tried, now, x) && StepOf(primary, x, |ps|) >= i
    ensures x in Candidates(ps, primary, tried, now, i)
    decreases |ps| - i
  {
    if StepOf(primary, x, |ps|) == i {
      assert Index(primary, i, |ps|) == x;
    } else {
      CandidatesHold(ps, primary, tried, now, i + 1, x);
    }
  }

  // The repeated search finds every usable, untried provider exactly once, in cyclic order
  // from the primary.
  lemma SearchEnumerates(ps: seq<Provider>, primary: nat, tried: set<nat>, now: real)
    requires primary < |ps|
    ensures var c := Candidates(ps, primary, tried, now, 0);
      && Ascending(c, primary, |ps|)
      && (forall j, k | 0 <= j < k < |c| :: c[j] != c[k])
      && forall idx: nat :: idx in c <==> Eligible(ps, tried, now, idx)
  {
    CandidatesAscend(ps, primary, tried, now, 0);
    forall idx: nat | Eligible(ps, tried, now, idx) ensures idx in Candidates(ps, primary, tried, now, 0) {
      CandidatesHold(ps, primary, tried, now, 0, idx);
    }
  }

  // ---- One chat ----

  // Every provider asked in a chat, the preferred one first.
  function Asked(ps: seq<Provider>, primary: nat, reply: nat -> Reply, clock: nat -> real,
                 finish: seq<nat> -> seq<nat>): seq<nat>
    requires primary < |ps| && Reorders(finish)
  {
    var first := FindNext(ps, primary, {}, clock(0));
    if first.Some? && reply(first.value).Answer? then [first.value]
    else
      (if first.Some? then [first.value] else [])
      + finish(Fallbacks(AfterFirst(ps, first, reply, clock(1)), primary, first, clock(2)))
  }

  ghost predicate Distinct(s: seq<nat>) {
    forall j, k | 0 <= j < k < |s| :: s[j] != s[k]
  }

  lemma {:induction false} Counted(s: seq<nat>, x: nat)
    requires Distinct(s)
    ensures multiset(s)[x] <= 1
  {
    if s != [] {
      assert s == [s[0]] + s[1..];
      Counted(s[1..], x);
      if x == s[0] { assert x !in s[1..]; }
    }
  }

  lemma PermutedDistinct(s: seq<nat>, t: seq<nat>)
    requires Distinct(s) && multiset(s) == multiset(t)
    ensures Distinct(t)
  {
    forall j, k | 0 <= j < k < |t| ensures t[j] != t[k] {
      Counted(s, t[j]);
      assert t == t[..k] + ([t[k]] + t[k + 1..]);
      assert t[j] == t[..k][j];
      assert t[j] in multiset(t[..k]);
    }
  }

  // No provider is asked twice in a chat; the preferred one is asked alone when it answers,
  // and otherwise so is every other provider usable at that moment.
  lemma AskedOnce(ps: seq<Provider>, primary: nat, reply: nat -> Reply, clock: nat -> real,
                  finish: seq<nat> -> seq<nat>)
    requires primary < |ps| && Reorders(finish)
    ensures var first := FindNext(ps, primary, {}, clock(0));
      var asked := Asked(ps, primary, reply, clock, finish);
      && Distinct(asked) && (forall j | 0 <= j < |asked| :: asked[j] < |ps|)
      && (first.Some? ==> asked != [] && asked[0] == first.value)
      && (first.None? || reply(first.value).Error? ==>
            var after := AfterFirst(ps, first, reply, clock(1));
            forall idx: nat :: idx in asked <==>
              first == Some(idx) || Eligible(after, if first.Some? then {first.value} else {}, clock(2), idx))
  {
    var first := FindNext(ps, primary, {}, clock(0));
    if first.None? || reply(first.value).Error? {
      var after := AfterFirst(ps, first, reply, clock(1));
      var order := finish(Fallbacks(after, primary, first, clock(2)));
      FallbacksOnce(after, primary, first, clock(2), finish);
      var failed := if first.Some? then [first.value] else [];
      assert first.Some? ==> first.value !in order;
      assert Distinct(failed + order);
    }
  }

  lemma FallbacksOnce(ps: seq<Provider>, primary: nat, first: Option<nat>, now: real, finish: seq<nat> -> seq<nat>)
    requires primary < |ps| && Reorders(finish)
    ensures var order := finish(Fallbacks(ps, primary, first, now));
      && Distinct(order) && (forall j | 0 <= j < |order| :: order[j] < |ps|)
      && forall idx: nat :: idx in order <==> Eligible(ps, if first.Some? then {first.value} else {}, now, idx)
  {
    var tried: set<nat> := if first.Some? then {first.value} else {};
    SearchEnumerates(ps, primary, tried, now);
    var fallbacks := Fallbacks(ps, primary, first, now);
    SameElements(fallbacks, finish(fallbacks));
    PermutedDistinct(fallbacks, finish(fallbacks));
  }

  lemma {:induction false} RaceResult(ps: seq<Provider>, order: seq<nat>, k: nat, errors: seq<nat>,
                                      reply: nat -> Reply, clock: nat -> real)
    requires k <= |order| && forall j | 0 <= j < |order| :: order[j] < |ps|
    ensures match Race(ps, order, k, errors, reply, clock).1
      case Answered(idx, text) => idx in order[k..] && reply(idx) == Answer(text)
      case Exhausted(all) => all == errors + order[k..] && forall j | k <= j < |order| :: reply(order[j]).Error?
    decreases |order| - k
  {
    if k < |order| {
      var idx := order[k];
      assert order[k..] == [idx] + order[k + 1..];
      if reply(idx).Error? {
        RaceResult(ps[idx := AfterFailure(ps[idx], clock(k + 3), reply(idx).retryable)], order, k + 1,
                   errors + [idx], reply, clock);
      }
    }
  }

  // A chat is answered exactly when some provider it asked answers, by one that does; it
  // gives up only after all of them failed, and then names them all.
  lemma AnswersIfAnyoneDoes(ps: seq<Provider>, primary: nat, reply: nat -> Reply, clock: nat -> real,
                            finish: seq<nat> -> seq<nat>)
    requires primary < |ps| && Reorders(finish)
    ensures var asked := Asked(ps, primary, reply, clock, finish);
      var result := ChatSpec(ps, primary, reply, clock, finish).1;
      && (result.Answered? <==> exists j | 0 <= j < |asked| :: reply(asked[j]).Answer?)
      && match result
         case Answered(idx, text) => idx in asked && reply(idx) == Answer(text)
         case Exhausted(errors) => errors == asked
  {
    var first := FindNext(ps, primary, {}, clock(0));
    if first.Some? && reply(first.value).Answer? {
      assert Asked(ps, primary, reply, clock, finish)[0] == first.value;
    } else {
      var after := AfterFirst(ps, first, reply, clock(1));
      var fallbacks := Fallbacks(after, primary, first, clock(2));
      SameElements(fallbacks, finish(fallbacks));
      RaceAnswers(after, finish(fallbacks), if first.Some? then [first.value] else [], reply, clock);
    }
  }

  lemma RaceAnswers(ps: seq<Provider>, order: seq<nat>, failed: seq<nat>, reply: nat -> Reply, clock: nat -> real)
    requires forall j | 0 <= j < |order| :: order[j] < |ps|
    requires forall j | 0 <= j < |failed| :: reply(failed[j]).Error?
    ensures var asked := failed + order;
      var result := Race(ps, order, 0, failed, reply, clock).1;
      && (result.Answered? <==> exists j | 0 <= j < |asked| :: reply(asked[j]).Answer?)
      && match result
         case Answered(idx, text) => idx in asked && reply(idx) == Answer(text)
         case Exhausted(errors) => errors == asked
  {
    RaceResult(ps, order, 0, failed, reply, clock);
    var asked := failed + order;
    assert order[0..] == order;
    var result := Race(ps, order, 0, failed, reply, clock).1;
    if result.Answered? {
      var j :| 0 <= j < |order| && order[j] == result.provider;
      assert asked[|failed| + j] == order[j];
    }
  }

  // ---- Provider states ----

  // What one recorded request does to a provider.
  function Charge(p: Provider, now: real, r: Reply): Provider {
    match r
    case Answer(_) => AfterSuccess(p)
    case Error(retryable) => AfterFailure(p, now, retryable)
  }

  // The place of the first answer among those asked, from k on, or the end.
  function FirstAnswer(asked: seq<nat>, k: nat, reply: nat -> Reply): (s: nat)
    requires k <= |asked|
    ensures k <= s <= |asked| && (s < |asked| ==> reply(asked[s]).Answer?)
    ensures forall j | k <= j < s :: reply(asked[j]).Error?
    decreases |asked| - k
  {
    if k == |asked| || reply(asked[k]).Answer? then k else FirstAnswer(asked, k + 1, reply)
  }

  // From place k on, exactly the providers up to the first answer are charged.
  ghost predicate RaceCharged(ps: seq<Provider>, after: seq<Provider>, order: seq<nat>, k: nat, s: nat,
                              reply: nat -> Reply, clock: nat -> real)
    requires |ps| == |after| && forall j | 0 <= j < |order| :: order[j] < |ps|
  {
    && (forall j | k <= j < |order| ::
          after[order[j]] == if j <= s then Charge(ps[order[j]], clock(j + 3), reply(order[j])) else ps[order[j]])
    && (forall i: nat | i < |ps| && NotFrom(order, k, i) :: after[i] == ps[i])
  }

  predicate NotFrom(order: seq<nat>, k: nat, i: nat) { forall j | k <= j < |order| :: order[j] != i }

  // A race charges exactly the providers that complete no later than the first answer.
  lemma {:induction false} RaceCharges(ps: seq<Provider>, order: seq<nat>, k: nat, errors: seq<nat>,
                                       reply: nat -> Reply, clock: nat -> real)
    requires k <= |order| && Distinct(order) && forall j | 0 <= j < |order| :: order[j] < |ps|
    ensures var after, s := Race(ps, order, k, errors, reply, clock).0, FirstAnswer(order, k, reply);
      |after| == |ps| && RaceCharged(ps, after, order, k, s, reply, clock)
    decreases |order| - k
  {
    if k < |order| {
      var idx := order[k];
      if reply(idx).Error? {
        var next := ps[idx := AfterFailure(ps[idx], clock(k + 3), reply(idx).retryable)];
        RaceCharges(next, order, k + 1, errors + [idx], reply, clock);
        var after := Race(next, order, k + 1, errors + [idx], reply, clock).0;
        assert NotFrom(order, k + 1, idx) && after[idx] == next[idx];
        assert forall i: nat | NotFrom(order, k, i) :: NotFrom(order, k + 1, i) && i != idx;
      } else {
        assert forall i: nat | NotFrom(order, k, i) :: i != idx;
      }
    }
  }

  // The clock reading with which the p-th provider asked is charged.
  function Reading(clock: nat -> real, preferred: bool, p: nat): real {
    if !preferred then clock(p + 3) else if p == 0 then clock(1) else clock(p + 2)
  }

  // Exactly the providers asked, up to the first answer, are charged.
  ghost predicate Charged(ps: seq<Provider>, after: seq<Provider>, asked: seq<nat>, preferred: bool,
                          reply: nat -> Reply, clock: nat -> real)
    requires |ps| == |after| && forall p | 0 <= p < |asked| :: asked[p] < |ps|
  {
    && (forall p | 0 <= p < |asked| :: after[asked[p]]
          == if p <= FirstAnswer(asked, 0, reply)
             then Charge(ps[asked[p]], Reading(clock, preferred, p), reply(asked[p])) else ps[asked[p]])
    && (forall i: nat | i < |ps| && i !in asked :: after[i] == ps[i])
  }

  // A chat records exactly one request for each provider asked that completed no later
  // than the first answer, with its reply; all other providers keep their state.
  lemma ChatCharges(ps: seq<Provider>, primary: nat, reply: nat -> Reply, clock: nat -> real,
                    finish: seq<nat> -> seq<nat>)
    requires primary < |ps| && Reorders(finish)
    ensures var asked := Asked(ps, primary, reply, clock, finish);
      var after := ChatSpec(ps, primary, reply, clock, finish).0;
      && |after| == |ps| && Distinct(asked) && (forall p | 0 <= p < |asked| :: asked[p] < |ps|)
      && Charged(ps, after, asked, FindNext(ps, primary, {}, clock(0)).Some?, reply, clock)
  {
    AskedOnce(ps, primary, reply, clock, finish);
    var first := FindNext(ps, primary, {}, clock(0));
    if first.None? || reply(first.value).Error? {
      var after := AfterFirst(ps, first, reply, clock(1));
      var fallbacks := Fallbacks(after, primary, first, clock(2));
      var order := finish(fallbacks);
      SameElements(fallbacks, order);
      RaceIsCharged(ps, first, order, reply, clock);
    }
  }

  lemma RaceIsCharged(ps: seq<Provider>, first: Option<nat>, order: seq<nat>, reply: nat -> Reply,
                      clock: nat -> real)
    requires first.Some? ==> first.value < |ps| && reply(first.value).Error?
    requires forall j | 0 <= j < |order| :: order[j] < |ps|
    requires Distinct((if first.Some? then [first.value] else []) + order)
    ensures var failed := if first.Some? then [first.value] else [];
      var after := Race(AfterFirst(ps, first, reply, clock(1)), order, 0, failed, reply, clock).0;
      |after| == |ps| && Charged(ps, after, failed + order, first.Some?, reply, clock)
  {
    var failed := if first.Some? then [first.value] else [];
    var mid := AfterFirst(ps, first, reply, clock(1));
    DistinctTail(failed, order);
    RaceCharges(mid, order, 0, failed, reply, clock);
    var after := Race(mid, order, 0, failed, reply, clock).0;
    if first.None? {
      assert failed + order == order;
      assert forall i: nat | i !in order :: NotFrom(order, 0, i);
    } else {
      FirstAnswerShift(failed, order, reply);
    }
  }

  lemma DistinctTail(a: seq<nat>, b: seq<nat>)
    requires Distinct(a + b)
    ensures Distinct(b)
    ensures forall i, j | 0 <= i < |a| && 0 <= j < |b| :: a[i] != b[j]
  {
    var ab := a + b;
    assert forall i | 0 <= i < |a| :: ab[i] == a[i];
    assert forall j | 0 <= j < |b| :: ab[|a| + j] == b[j];
  }

  lemma FirstAnswerShift(failed: seq<nat>, order: seq<nat>, reply: nat -> Reply)
    requires forall j | 0 <= j < |failed| :: reply(failed[j]).Error?
    ensures FirstAnswer(failed + order, 0, reply) == |failed| + FirstAnswer(order, 0, reply)
  {
    var asked := failed + order;
    var s, t := FirstAnswer(order, 0, reply), FirstAnswer(asked, 0, reply);
    assert forall j | 0 <= j < |order| :: asked[|failed| + j] == order[j];
    assert forall j | 0 <= j < |failed| :: asked[j] == failed[j];
  }

  // The failure of a provider that was asked is recorded exactly when no answer came
  // before it; after an answer the state stays as if it had never been asked.
  lemma LateFailuresAreLost(ps: seq<Provider>, primary: nat, reply: nat -> Reply, clock: nat -> real,
                            finish: seq<nat> -> seq<nat>, p: nat)
    requires primary < |ps| && Reorders(finish)
    requires var asked := Asked(ps, primary, reply, clock, finish); p < |asked| && reply(asked[p]).Error?
    ensures var asked := Asked(ps, primary, reply, clock, finish);
      var after := ChatSpec(ps, primary, reply, clock, finish).0;
      && asked[p] < |ps| == |after|
      && (after[asked[p]].failures == ps[asked[p]].failures + 1 <==> forall j | 0 <= j < p :: reply(asked[j]).Error?)
      && (after[asked[p]] == ps[asked[p]] <==> exists j | 0 <= j < p :: reply(asked[j]).Answer?)
  {
    ChatCharges(ps, primary, reply, clock, finish);
  }

  // Three new providers, of which the second answers before the third one fails.
  function SecondAnswers(idx: nat): Reply {
    if idx == 1 then Answer("done") else Error(true)
  }

  function AtStart(reading: nat): real { 0.0 }

  function AsAsked(order: seq<nat>): seq<nat> { order }

  // The failure of the third provider is lost: it still counts as never asked.
  lemma LateFailureIsLost()
    ensures var ps := [FRESH_PROVIDER, FRESH_PROVIDER, FRESH_PROVIDER];
      && Asked(ps, 0, SecondAnswers, AtStart, AsAsked) == [0, 1, 2]
      && SecondAnswers(0).Error? && SecondAnswers(1).Answer? && SecondAnswers(2).Error?
      && var after := ChatSpec(ps, 0, SecondAnswers, AtStart, AsAsked).0;
         |after| == 3 && after[2] == FRESH_PROVIDER
  {
    var ps := [FRESH_PROVIDER, FRESH_PROVIDER, FRESH_PROVIDER];
    var after := AfterFirst(ps, Some(0), SecondAnswers, 0.0);
    assert FindNext(ps, 0, {}, 0.0) == Some(0);
    assert Candidates(after, 0, {0}, 0.0, 3) == [];
    assert Candidates(after, 0, {0}, 0.0, 2) == [2];
    assert Candidates(after, 0, {0}, 0.0, 1) == [1, 2];
    assert Candidates(after, 0, {0}, 0.0, 0) == [1, 2];
    ChatCharges(ps, 0, SecondAnswers, AtStart, AsAsked);
  }

  // AVAILABLE means no failure since the last success.
  predicate Consistent(p: Provider) {
    && (p.status == Available <==> p.failures == 0)
    && p.failures <= p.totalFailures <= p.requests
  }

  datatype Round = Round(reply: nat -> Reply, clock: nat -> real, finish: seq<nat> -> seq<nat>)

  // The provider states after a number of chats.
  function Run(ps: seq<Provider>, primary: nat, rounds: seq<Round>): (after: seq<Provider>)
    requires primary < |ps| && forall i | 0 <= i < |rounds| :: Reorders(rounds[i].finish)
    ensures |after| == |ps|
  {
    if rounds == [] then ps
    else
      var n := |rounds| - 1;
      var before := Run(ps, primary, rounds[..n]);
      ChatCharges(before, primary, rounds[n].reply, rounds[n].clock, rounds[n].finish);
      ChatSpec(before, primary, rounds[n].reply, rounds[n].clock, rounds[n].finish).0
  }

  // Provider i completes no later than the first answer of the chat.
  predicate Recorded(ps: seq<Provider>, primary: nat, r: Round, i: nat)
    requires primary < |ps| && Reorders(r.finish)
  {
    var asked := Asked(ps, primary, r.reply, r.clock, r.finish);
    exists p | 0 <= p < |asked| :: asked[p] == i && p <= FirstAnswer(asked, 0, r.reply)
  }

  // The number of chats that recorded a request for provider i.
  function Requests(ps: seq<Provider>, primary: nat, rounds: seq<Round>, i: nat): nat
    requires primary < |ps| && forall j | 0 <= j < |rounds| :: Reorders(rounds[j].finish)
  {
    if rounds == [] then 0
    else
      var n := |rounds| - 1;
      Requests(ps, primary, rounds[..n], i)
      + if Recorded(Run(ps, primary, rounds[..n]), primary, rounds[n], i) then 1 else 0
  }

  // One chat, seen from one provider.
  ghost predicate OneRequest(before: Provider, after: Provider, recorded: bool) {
    && (Consistent(before) ==> Consistent(after))
    && (before.status == Failed ==> after == before)
    && after.requests == before.requests + if recorded then 1 else 0
  }

  lemma OneCharge(ps: seq<Provider>, after: seq<Provider>, asked: seq<nat>, preferred: bool,
                  reply: nat -> Reply, clock: nat -> real, i: nat)
    requires |ps| == |after| && i < |ps| && Distinct(asked) && forall p | 0 <= p < |asked| :: asked[p] < |ps|
    requires Charged(ps, after, asked, preferred, reply, clock)
    requires i in asked ==> ps[i].status != Failed
    ensures OneRequest(ps[i], after[i],
                       exists p | 0 <= p < |asked| :: asked[p] == i && p <= FirstAnswer(asked, 0, reply))
  {
    if p :| 0 <= p < |asked| && asked[p] == i {
      assert forall q | 0 <= q < |asked| && asked[q] == i :: q == p;
    }
  }

  lemma OneChat(ps: seq<Provider>, primary: nat, r: Round, i: nat)
    requires primary < |ps| && Reorders(r.finish) && i < |ps|
    ensures var after := ChatSpec(ps, primary, r.reply, r.clock, r.finish).0;
      |after| == |ps| && OneRequest(ps[i], after[i], Recorded(ps, primary, r, i))
  {
    ChatCharges(ps, primary, r.reply, r.clock, r.finish);
    var asked := Asked(ps, primary, r.reply, r.clock, r.finish);
    if i in asked { AskedIsUsable(ps, primary, r, i); }
    OneCharge(ps, ChatSpec(ps, primary, r.reply, r.clock, r.finish).0, asked,
              FindNext(ps, primary, {}, r.clock(0)).Some?, r.reply, r.clock, i);
  }

  lemma AskedIsUsable(ps: seq<Provider>, primary: nat, r: Round, i: nat)
    requires primary < |ps| && Reorders(r.finish) && i < |ps|
    requires i in Asked(ps, primary, r.reply, r.clock, r.finish)
    ensures ps[i].status != Failed
  {
    var first := FindNext(ps, primary, {}, r.clock(0));
    SearchEnumerates(ps, primary, {}, r.clock(0));
    if first.Some? {
      assert first.value in Candidates(ps, primary, {}, r.clock(0), 0);
    }
    if first != Some(i) {
      AskedOnce(ps, primary, r.reply, r.clock, r.finish);
    }
  }

  lemma {:induction false} OneMoreChat(ps: seq<Provider>, primary: nat, rounds: seq<Round>, i: nat)
    requires primary < |ps| && i < |ps| && forall j | 0 <= j < |rounds| :: Reorders(rounds[j].finish)
    requires rounds != []
    ensures var n := |rounds| - 1; var before := Run(ps, primary, rounds[..n]);
      OneRequest(before[i], Run(ps, primary, rounds)[i], Recorded(before, primary, rounds[n], i))
  {
    OneChat(Run(ps, primary, rounds[..|rounds| - 1]), primary, rounds[|rounds| - 1], i);
  }

  // Over any number of chats a failed provider stays failed and is never asked again, a
  // provider's count is exactly the number of chats that recorded it, at most one each, and
  // AVAILABLE holds exactly without failures.
  lemma {:induction false} RunStates(ps: seq<Provider>, primary: nat, rounds: seq<Round>, i: nat)
    requires primary < |ps| && i < |ps| && forall j | 0 <= j < |rounds| :: Reorders(rounds[j].finish)
    requires Consistent(ps[i])
    ensures Consistent(Run(ps, primary, rounds)[i])
    ensures ps[i].status == Failed ==> Run(ps, primary, rounds)[i] == ps[i]
    ensures Run(ps, primary, rounds)[i].requests == ps[i].requests + Requests(ps, primary, rounds, i)
  {
    if rounds != [] {
      RunStates(ps, primary, rounds[..|rounds| - 1], i);
      OneMoreChat(ps, primary, rounds, i);
    }
  }

  // ---- Cooldowns ----

  lemma {:induction false} Pow2Grows(n: nat, m: nat)
    requires n <= m
    ensures 1 <= Pow2(n) <= Pow2(m)
    decreases m
  {
    if n < m {
      Pow2Grows(n, m - 1);
    } else if n > 0 {
      Pow2Grows(n - 1, m - 1);
    }
  }

  // Cooldowns grow with the consecutive failures and lie between half a minute and five.
  lemma CooldownsGrow(n: nat, m: nat)
    requires 1 <= n <= m
    ensures 30 <= CooldownSeconds(n) <= CooldownSeconds(m) <= 300
  {
    Pow2Grows(0, n - 1);
    Pow2Grows(n - 1, m - 1);
  }

  // A provider that failed for the n-th time in a row is not asked again before its
  // cooldown is over: no search at an earlier time finds it.
  lemma CoolingIsNotFound(ps: seq<Provider>, primary: nat, tried: set<nat>, i: nat, p: Provider,
                          failedAt: real, now: real)
    requires primary < |ps| && i < |ps| && ps[i] == AfterFailure(p, failedAt, true)
    ensures ps[i].cooldownUntil == failedAt + CooldownSeconds(p.failures + 1) as real
    ensures i in Candidates(ps, primary, tried, now, 0)
       <==> i !in tried && now - failedAt >= CooldownSeconds(p.failures + 1) as real
  {
    SearchEnumerates(ps, primary, tried, now);
  }
}

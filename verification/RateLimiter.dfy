// _rate_limited of app/api/app.py: a sliding window over the accepted attempts of a key,
// of which only a pruned list is kept. Times are the readings of a nondecreasing clock.
module RateLimiter {
  // The attempts younger than the window.
  function Recent(stamps: seq<real>, now: real, window: real): seq<real> {
    if stamps == [] then []
    else if now - stamps[0] < window then [stamps[0]] + Recent(stamps[1..], now, window)
    else Recent(stamps[1..], now, window)
  }

  // One step of the pruning loop.
  lemma {:induction false} PruneStep(recent: seq<real>, stored: seq<real>, i: nat, now: real, window: real)
    requires i < |stored|
    ensures recent + Recent(stored[i..], now, window)
         == (if now - stored[i] < window then recent + [stored[i]] else recent) + Recent(stored[i + 1..], now, window)
  {
    assert stored[i..][0] == stored[i] && stored[i..][1..] == stored[i + 1..];
  }

  datatype Call = Call(key: string, limit: int, window: real, now: real)

  function Get(attempts: map<string, seq<real>>, key: string): seq<real> {
    if key in attempts then attempts[key] else []
  }

  // The attempt table of the module and its one operation.
  class Limiter {
    var attempts: map<string, seq<real>>

    constructor ()
      ensures attempts == map[]
    {
      attempts := map[];
    }

    method RateLimited(key: string, limit: int, window: real, now: real) returns (refused: bool)
      modifies this
      ensures (attempts, refused) == Step(old(attempts), Call(key, limit, window, now))
    {
      var recent := [];
      var stored := Get(attempts, key);
      for i := 0 to |stored|
        invariant attempts == old(attempts)
        invariant recent + Recent(stored[i..], now, window) == Recent(stored, now, window)
      {
        PruneStep(recent, stored, i, now, window);
        if now - stored[i] < window {
          recent := recent + [stored[i]];
        }
      }
      assert stored[|stored|..] == [] && recent + [] == recent;
      if |recent| >= limit {
        attempts := attempts[key := recent];
        return true;
      }
      recent := recent + [now];
      attempts := attempts[key := recent];
      return false;
    }
  }

  function Step(attempts: map<string, seq<real>>, c: Call): (map<string, seq<real>>, bool) {
    var recent := Recent(Get(attempts, c.key), c.now, c.window);
    if |recent| >= c.limit then (attempts[c.key := recent], true)
    else (attempts[c.key := recent + [c.now]], false)
  }

  // The table after a sequence of calls, starting empty.
  function Table(calls: seq<Call>): map<string, seq<real>> {
    if calls == [] then map[] else Step(Table(calls[..|calls| - 1]), calls[|calls| - 1]).0
  }

  predicate RefusedAt(calls: seq<Call>, i: nat)
    requires i < |calls|
  {
    Step(Table(calls[..i]), calls[i]).1
  }

  // ---- The unpruned log ----

  // The stamps of every accepted attempt of a key, oldest first.
  function Accepted(calls: seq<Call>, key: string): seq<real> {
    if calls == [] then []
    else
      var n := |calls| - 1;
      Accepted(calls[..n], key) + if calls[n].key == key && !RefusedAt(calls, n) then [calls[n].now] else []
  }

  ghost predicate Clock(calls: seq<Call>) {
    forall i, j | 0 <= i < j < |calls| :: calls[i].now <= calls[j].now
  }

  // One key is always asked with the same window.
  ghost predicate FixedWindow(calls: seq<Call>, key: string, window: real) {
    forall i | 0 <= i < |calls| && calls[i].key == key :: calls[i].window == window
  }

  ghost predicate FixedLimit(calls: seq<Call>, key: string, limit: int) {
    forall i | 0 <= i < |calls| && calls[i].key == key :: calls[i].limit == limit
  }

  lemma {:induction false} RecentAppend(x: seq<real>, y: seq<real>, now: real, window: real)
    ensures Recent(x + y, now, window) == Recent(x, now, window) + Recent(y, now, window)
  {
    if x == [] {
      assert x + y == y;
    } else {
      assert (x + y)[1..] == x[1..] + y;
      RecentAppend(x[1..], y, now, window);
    }
  }

  // Pruning earlier loses nothing that counts later.
  lemma {:induction false} RecentOfRecent(stamps: seq<real>, earlier: real, later: real, window: real)
    requires earlier <= later
    ensures Recent(Recent(stamps, earlier, window), later, window) == Recent(stamps, later, window)
  {
    if stamps != [] {
      RecentOfRecent(stamps[1..], earlier, later, window);
      var rest := Recent(stamps[1..], earlier, window);
      if earlier - stamps[0] < window {
        assert ([stamps[0]] + rest)[1..] == rest;
      } else {
        assert later - stamps[0] >= window && [] + rest == rest;
      }
    }
  }

  // What the pruned list answers is what the full log of accepted attempts would.
  lemma {:induction false} PrunedAgreesWithLog(calls: seq<Call>, key: string, window: real, now: real)
    requires Clock(calls) && FixedWindow(calls, key, window)
    requires forall i | 0 <= i < |calls| :: calls[i].now <= now
    ensures Recent(Get(Table(calls), key), now, window) == Recent(Accepted(calls, key), now, window)
  {
    if calls != [] {
      var n := |calls| - 1;
      var before, c := calls[..n], calls[n];
      PrunedAgreesWithLog(before, key, window, now);
      if c.key == key {
        assert c.window == window;
        var stored := Get(Table(before), key);
        RecentOfRecent(stored, c.now, now, window);
        if !RefusedAt(calls, n) {
          RecentAppend(Recent(stored, c.now, window), [c.now], now, window);
          RecentAppend(Accepted(before, key), [c.now], now, window);
        } else {
          assert Accepted(calls, key) == Accepted(before, key);
        }
      } else {
        assert Accepted(calls, key) == Accepted(before, key);
      }
    }
  }

  // A call is refused exactly when at least `limit` accepted attempts of its key are
  // younger than the window.
  lemma RefusedIffWindowFull(calls: seq<Call>, i: nat)
    requires i < |calls| && Clock(calls) && FixedWindow(calls, calls[i].key, calls[i].window)
    ensures RefusedAt(calls, i)
       <==> |Recent(Accepted(calls[..i], calls[i].key), calls[i].now, calls[i].window)| >= calls[i].limit
  {
    PrunedAgreesWithLog(calls[..i], calls[i].key, calls[i].window, calls[i].now);
  }

  // A table entry depends on the calls for its key alone.
  function Only(calls: seq<Call>, key: string): seq<Call> {
    if calls == [] then []
    else
      var n := |calls| - 1;
      Only(calls[..n], key) + if calls[n].key == key then [calls[n]] else []
  }

  lemma {:induction false} KeysAreIndependent(calls: seq<Call>, key: string)
    ensures Get(Table(calls), key) == Get(Table(Only(calls, key)), key)
    ensures Accepted(calls, key) == Accepted(Only(calls, key), key)
  {
    if calls != [] {
      var n := |calls| - 1;
      var own := Only(calls, key);
      KeysAreIndependent(calls[..n], key);
      if calls[n].key == key {
        assert own[..|own| - 1] == Only(calls[..n], key) && own[|own| - 1] == calls[n];
      } else {
        assert own == Only(calls[..n], key);
      }
    }
  }

  // ---- Spacing ----

  ghost predicate Sorted(stamps: seq<real>) {
    forall i, j | 0 <= i < j < |stamps| :: stamps[i] <= stamps[j]
  }

  lemma {:induction false} AcceptedSorted(calls: seq<Call>, key: string)
    requires Clock(calls)
    ensures Sorted(Accepted(calls, key))
    ensures forall s | s in Accepted(calls, key) :: exists i | 0 <= i < |calls| :: calls[i].now == s
  {
    if calls != [] {
      var n := |calls| - 1;
      AcceptedSorted(calls[..n], key);
      forall s | s in Accepted(calls, key) ensures exists i | 0 <= i < |calls| :: calls[i].now == s {
        if s in Accepted(calls[..n], key) {
          var i :| 0 <= i < n && calls[..n][i].now == s;
          assert calls[i].now == s;
        } else {
          assert calls[n].now == s;
        }
      }
      var log := Accepted(calls[..n], key);
      forall s | s in log ensures s <= calls[n].now {
        var i :| 0 <= i < n && calls[..n][i].now == s;
        assert calls[i].now <= calls[n].now;
      }
      assert forall i | 0 <= i < |log| :: log[i] in log;
    }
  }

  // In a sorted log the attempts younger than the window are its last ones.
  lemma {:induction false} RecentIsSuffix(stamps: seq<real>, now: real, window: real)
    requires Sorted(stamps)
    ensures var n := |Recent(stamps, now, window)|;
      && n <= |stamps|
      && (forall i | 0 <= i < |stamps| - n :: now - stamps[i] >= window)
  {
    if stamps != [] {
      RecentIsSuffix(stamps[1..], now, window);
      if now - stamps[0] < window {
        AllRecent(stamps, now, window);
      } else {
        forall i | 0 <= i < |stamps| - |Recent(stamps, now, window)| ensures now - stamps[i] >= window {
          if i > 0 { assert stamps[i] == stamps[1..][i - 1]; }
        }
      }
    }
  }

  lemma {:induction false} AllRecent(stamps: seq<real>, now: real, window: real)
    requires Sorted(stamps) && stamps != [] && now - stamps[0] < window
    ensures |Recent(stamps, now, window)| == |stamps|
  {
    if |stamps| > 1 {
      AllRecent(stamps[1..], now, window);
    }
  }

  // Over any run, any limit + 1 accepted attempts of a key span at least the window.
  lemma {:induction false} AcceptedAttemptsSpread(calls: seq<Call>, key: string, limit: nat, window: real)
    requires Clock(calls) && FixedWindow(calls, key, window) && FixedLimit(calls, key, limit)
    ensures var log := Accepted(calls, key);
      forall i | 0 <= i < |log| - limit :: log[i + limit] - log[i] >= window
  {
    if calls != [] {
      var n := |calls| - 1;
      var before, c := calls[..n], calls[n];
      AcceptedAttemptsSpread(before, key, limit, window);
      if c.key == key && !RefusedAt(calls, n) {
        RefusedIffWindowFull(calls, n);
        AcceptedSorted(before, key);
        var earlier := Accepted(before, key);
        RecentIsSuffix(earlier, c.now, window);
        assert Accepted(calls, key) == earlier + [c.now];
        assert |Recent(earlier, c.now, window)| < limit;
        assert |earlier| >= limit ==> c.now - earlier[|earlier| - limit] >= window;
      } else {
        assert Accepted(calls, key) == Accepted(before, key);
      }
    }
  }
}

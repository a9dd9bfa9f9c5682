/** The in-memory sliding-window rate limiter. */
module RateLimiter {

  const TICKS := 1000000 // microseconds in a second

  type History = map<string, seq<int>>

  /** One request: when it arrived, and the slightly later clock reading its clean-up uses. */
  datatype Call = Call(key: string, now: int, cleanedAt: int)

  datatype Config = Config(requests: int, seconds: int, sleepSeconds: int) {
    function Window(): int {
      seconds * TICKS
    }

    /** How many requests of one key, this one included, may be recent when a request is let through. */
    function Limit(): int {
      if sleepSeconds > 0 then requests * 2 else requests
    }
  }

  function Of(h: History, key: string): seq<int> {
    if key in h then h[key] else []
  }

  /** The times after `cutoff`. */
  function Recent(times: seq<int>, cutoff: int): (r: seq<int>)
    ensures |r| <= |times|
  {
    if times == [] then []
    else
      var n := |times| - 1;
      Recent(times[..n], cutoff) + if times[n] > cutoff then [times[n]] else []
  }

  function Step(cfg: Config, h: History, c: Call): History {
    h[c.key := Recent(Of(h, c.key), c.cleanedAt - cfg.Window()) + [c.now]]
  }

  predicate Passes(cfg: Config, h: History, c: Call) {
    |Of(Step(cfg, h, c), c.key)| <= cfg.Limit()
  }

  class InMemoryRateLimiter {
    const cfg: Config
    var history: History

    constructor (requests: int, seconds: int, sleepSeconds: int)
      ensures cfg == Config(requests, seconds, sleepSeconds) && history == map[]
    {
      cfg := Config(requests, seconds, sleepSeconds);
      history := map[];
    }

    method CleanOldRequests(key: string, now: int)
      modifies this`history
      ensures history == old(history)[key := Recent(Of(old(history), key), now - cfg.Window())]
    {
      var cutoff := now - cfg.Window();
      var times, kept := Of(history, key), [];
      for i := 0 to |times|
        invariant kept == Recent(times[..i], cutoff)
      {
        assert times[..i + 1][..i] == times[..i];
        if times[i] > cutoff {
          kept := kept + [times[i]];
        }
      }
      assert times[..|times|] == times;
      history := history[key := kept];
    }

    /** `__call__`: is the request let through, and does it have to sleep first? */
    method Admit(c: Call) returns (ok: bool, sleeps: bool)
      modifies this`history
      ensures history == Step(cfg, old(history), c)
      ensures forall k | k != c.key :: Of(history, k) == Of(old(history), k)
      ensures ok <==> Passes(cfg, old(history), c)
      ensures sleeps <==> ok && |Of(history, c.key)| > cfg.requests
    {
      CleanOldRequests(c.key, c.cleanedAt);
      history := history[c.key := history[c.key] + [c.now]];
      if |history[c.key]| > cfg.requests * 2 {
        return false, false;
      } else if |history[c.key]| > cfg.requests {
        if cfg.sleepSeconds > 0 {
          return true, true;
        } else {
          return false, false;
        }
      }
      return true, false;
    }
  }

  // ---- Whole runs ----

  function HistoryAfter(cfg: Config, calls: seq<Call>): History {
    if calls == [] then map[] else Step(cfg, HistoryAfter(cfg, calls[..|calls| - 1]), calls[|calls| - 1])
  }

  predicate LastPasses(cfg: Config, calls: seq<Call>)
    requires calls != []
  {
    Passes(cfg, HistoryAfter(cfg, calls[..|calls| - 1]), calls[|calls| - 1])
  }

  /** The clock never goes back, and a clean-up reads it at most `skew` after the arrival. */
  predicate Clocked(calls: seq<Call>, skew: int) {
    && (forall i | 0 <= i < |calls| :: calls[i].now <= calls[i].cleanedAt <= calls[i].now + skew)
    && (forall i, j | 0 <= i < j < |calls| :: calls[i].cleanedAt <= calls[j].now)
  }

  /** When the requests of one key arrived, whether let through or not. */
  function Times(calls: seq<Call>, key: string): seq<int> {
    if calls == [] then []
    else
      var n := |calls| - 1;
      Times(calls[..n], key) + if calls[n].key == key then [calls[n].now] else []
  }

  /** How many requests of a key that arrived in `[from, to)` were let through. */
  function AdmittedIn(cfg: Config, calls: seq<Call>, key: string, from: int, to: int): nat {
    if calls == [] then 0
    else
      var n := |calls| - 1;
      AdmittedIn(cfg, calls[..n], key, from, to)
      + if calls[n].key == key && from <= calls[n].now < to && LastPasses(cfg, calls) then 1 else 0
  }

  function CountIn(times: seq<int>, from: int, to: int): nat {
    if times == [] then 0
    else
      var n := |times| - 1;
      CountIn(times[..n], from, to) + if from <= times[n] < to then 1 else 0
  }

  lemma {:induction false} RecentAppend(a: seq<int>, x: int, cutoff: int)
    ensures Recent(a + [x], cutoff) == Recent(a, cutoff) + if x > cutoff then [x] else []
  {
    assert (a + [x])[..|a|] == a;
  }

  lemma {:induction false} RecentTwice(a: seq<int>, c: int, d: int)
    requires c <= d
    ensures Recent(Recent(a, c), d) == Recent(a, d)
  {
    if a != [] {
      var n := |a| - 1;
      RecentTwice(a[..n], c, d);
      if a[n] > c {
        RecentAppend(Recent(a[..n], c), a[n], d);
      } else {
        assert Recent(a, c) == Recent(a[..n], c);
      }
    }
  }

  /** What clean-ups have thrown away is too old to matter: the kept times after a later cutoff are all times after it. */
  lemma {:induction false} KeptAreAll(cfg: Config, calls: seq<Call>, skew: int, key: string, cutoff: int)
    requires Clocked(calls, skew)
    requires forall i | 0 <= i < |calls| :: calls[i].cleanedAt - cfg.Window() <= cutoff
    ensures Recent(Of(HistoryAfter(cfg, calls), key), cutoff) == Recent(Times(calls, key), cutoff)
  {
    hide Recent;
    if calls != [] {
      var n := |calls| - 1;
      var c := calls[n];
      KeptAreAll(cfg, calls[..n], skew, key, cutoff);
      if c.key == key {
        var before := Of(HistoryAfter(cfg, calls[..n]), key);
        RecentAppend(Recent(before, c.cleanedAt - cfg.Window()), c.now, cutoff);
        RecentTwice(before, c.cleanedAt - cfg.Window(), cutoff);
        RecentAppend(Times(calls[..n], key), c.now, cutoff);
      } else {
        assert Times(calls, key) == Times(calls[..n], key);
      }
    }
  }

  /** A request is let through exactly when, counting itself and every request of its key in the
      window before it whether let through or not, the limit is not exceeded. */
  lemma PassesExactly(cfg: Config, calls: seq<Call>, skew: int)
    requires calls != [] && Clocked(calls, skew)
    ensures var n := |calls| - 1;
      LastPasses(cfg, calls) <==>
        |Recent(Times(calls[..n], calls[n].key), calls[n].cleanedAt - cfg.Window())| + 1 <= cfg.Limit()
  {
    hide Recent, Times, HistoryAfter;
    var n := |calls| - 1;
    forall i | 0 <= i < n ensures calls[i].cleanedAt <= calls[n].cleanedAt { assert calls[n].now <= calls[n].cleanedAt; }
    KeptAreAll(cfg, calls[..n], skew, calls[n].key, calls[n].cleanedAt - cfg.Window());
  }

  lemma {:induction false} CountedAreRecent(times: seq<int>, from: int, to: int, cutoff: int)
    requires cutoff < from
    ensures CountIn(times, from, to) <= |Recent(times, cutoff)|
  {
    if times != [] {
      CountedAreRecent(times[..|times| - 1], from, to, cutoff);
    }
  }

  lemma {:induction false} CountAppend(a: seq<int>, x: int, from: int, to: int)
    ensures CountIn(a + [x], from, to) == CountIn(a, from, to) + if from <= x < to then 1 else 0
  {
    assert (a + [x])[..|a|] == a;
  }

  lemma {:induction false} AdmittedAreCounted(cfg: Config, calls: seq<Call>, key: string, from: int, to: int)
    ensures AdmittedIn(cfg, calls, key, from, to) <= CountIn(Times(calls, key), from, to)
  {
    hide LastPasses;
    if calls != [] {
      var n := |calls| - 1;
      AdmittedAreCounted(cfg, calls[..n], key, from, to);
      if calls[n].key == key {
        CountAppend(Times(calls[..n], key), calls[n].now, from, to);
      } else {
        assert Times(calls, key) == Times(calls[..n], key);
      }
    }
  }

  /** No window of the configured length, less the clock skew, holds more admitted requests of one key than the limit. */
  lemma {:induction false} WindowBound(cfg: Config, calls: seq<Call>, skew: int, key: string, from: int, to: int)
    requires Clocked(calls, skew) && to - from <= cfg.Window() - skew
    ensures AdmittedIn(cfg, calls, key, from, to) <= if cfg.Limit() < 0 then 0 else cfg.Limit()
  {
    hide LastPasses, Recent, CountIn;
    if calls != [] {
      var n := |calls| - 1;
      var c := calls[n];
      if c.key == key && from <= c.now < to && LastPasses(cfg, calls) {
        PassesExactly(cfg, calls, skew);
        AdmittedAreCounted(cfg, calls[..n], key, from, to);
        CountedAreRecent(Times(calls[..n], key), from, to, c.cleanedAt - cfg.Window());
      } else {
        WindowBound(cfg, calls[..n], skew, key, from, to);
      }
    }
  }

  /** The bounds as documented: twice the requests, and the requests alone when nobody sleeps. */
  lemma WindowBoundBySetting(cfg: Config, calls: seq<Call>, key: string, from: int)
    requires Clocked(calls, 0) && cfg.requests >= 0
    ensures AdmittedIn(cfg, calls, key, from, from + cfg.seconds * 1000000) <= 2 * cfg.requests
    ensures cfg.sleepSeconds <= 0 ==> AdmittedIn(cfg, calls, key, from, from + cfg.seconds * 1000000) <= cfg.requests
  {
    WindowBound(cfg, calls, 0, key, from, from + cfg.Window());
  }

  function Burst(key: string, now: int, n: nat): (r: seq<Call>)
    ensures |r| == n && forall i | 0 <= i < n :: r[i] == Call(key, now, now)
  {
    seq(n, _ => Call(key, now, now))
  }

  lemma {:induction false} BurstTimes(key: string, now: int, n: nat, cutoff: int)
    ensures |Times(Burst(key, now, n), key)| == n
    ensures |Recent(Times(Burst(key, now, n), key), cutoff)| <= n
  {
    if n > 0 {
      assert Burst(key, now, n)[..n - 1] == Burst(key, now, n - 1);
      BurstTimes(key, now, n - 1, cutoff);
    }
  }

  /** The bound is reached: a burst of as many requests as the limit is let through whole. */
  lemma {:induction false} BurstAdmitted(cfg: Config, key: string, now: int, n: nat, from: int, to: int)
    requires n <= cfg.Limit() && from <= now < to
    ensures AdmittedIn(cfg, Burst(key, now, n), key, from, to) == n
  {
    hide LastPasses, Recent, Times;
    if n > 0 {
      var calls := Burst(key, now, n);
      assert calls[..n - 1] == Burst(key, now, n - 1);
      BurstAdmitted(cfg, key, now, n - 1, from, to);
      BurstTimes(key, now, n - 1, now - cfg.Window());
      PassesExactly(cfg, calls, 0);
    }
  }

  lemma AdmittedGrows(cfg: Config, calls: seq<Call>, key: string, from: int, to: int)
    requires calls != []
    ensures AdmittedIn(cfg, calls[..|calls| - 1], key, from, to) <= AdmittedIn(cfg, calls, key, from, to)
  {
    hide LastPasses;
  }

  lemma BurstBound(cfg: Config, key: string, now: int, n: nat)
    requires cfg.requests >= 0
    ensures AdmittedIn(cfg, Burst(key, now, n), key, now, now + cfg.seconds * 1000000) <= cfg.Limit()
  {
    hide AdmittedIn;
    WindowBound(cfg, Burst(key, now, n), 0, key, now, now + cfg.seconds * 1000000);
  }

  /** Of any burst exactly so many are let through: twice the requests, or the requests when nobody sleeps. */
  lemma {:induction false} BurstExactly(cfg: Config, key: string, now: int, n: nat)
    requires cfg.requests >= 0 && cfg.seconds > 0
    ensures var most := if cfg.sleepSeconds > 0 then 2 * cfg.requests else cfg.requests;
      AdmittedIn(cfg, Burst(key, now, n), key, now, now + cfg.seconds * 1000000) == if n < most then n else most
    decreases n
  {
    hide AdmittedIn;
    var to := now + cfg.seconds * 1000000;
    if n <= cfg.Limit() {
      BurstAdmitted(cfg, key, now, n, now, to);
    } else {
      assert Burst(key, now, n)[..n - 1] == Burst(key, now, n - 1);
      BurstExactly(cfg, key, now, n - 1);
      AdmittedGrows(cfg, Burst(key, now, n), key, now, to);
      BurstBound(cfg, key, now, n);
    }
  }

  lemma {:induction false} BurstForgotten(key: string, now: int, n: nat, cutoff: int)
    requires now <= cutoff
    ensures Recent(Times(Burst(key, now, n), key), cutoff) == []
  {
    if n > 0 {
      var calls := Burst(key, now, n);
      assert calls[..n - 1] == Burst(key, now, n - 1);
      BurstForgotten(key, now, n - 1, cutoff);
      RecentAppend(Times(calls[..n - 1], key), now, cutoff);
    }
  }

  /** A burst that uses up the limit, and one more request whose clean-up reads the clock late. */
  function Overrun(cfg: Config, key: string, from: int, to: int, skew: int): seq<Call>
    requires cfg.Limit() >= 0
  {
    Burst(key, from, cfg.Limit()) + [Call(key, to - 1, to - 1 + skew)]
  }

  /** In a window longer than the configured one less the clock skew, one request too many gets through. */
  lemma OverrunAdmitted(cfg: Config, key: string, from: int, to: int, skew: int)
    requires cfg.Limit() >= 1 && skew >= 0 && from < to && to - from > cfg.Window() - skew
    ensures Clocked(Overrun(cfg, key, from, to, skew), skew)
    ensures AdmittedIn(cfg, Overrun(cfg, key, from, to, skew), key, from, to) == cfg.Limit() + 1
  {
    var calls := Overrun(cfg, key, from, to, skew);
    OverrunClocked(cfg, key, from, to, skew);
    OverrunPasses(cfg, key, from, to, skew);
    BurstAdmitted(cfg, key, from, cfg.Limit(), from, to);
    hide LastPasses, Overrun, AdmittedIn, Clocked;
    OneMoreAdmitted(cfg, calls, key, from, to);
  }

  lemma OneMoreAdmitted(cfg: Config, calls: seq<Call>, key: string, from: int, to: int)
    requires calls != [] && LastPasses(cfg, calls)
    requires calls[|calls| - 1].key == key && from <= calls[|calls| - 1].now < to
    ensures AdmittedIn(cfg, calls, key, from, to) == AdmittedIn(cfg, calls[..|calls| - 1], key, from, to) + 1
  {
    hide LastPasses;
  }

  lemma OverrunPasses(cfg: Config, key: string, from: int, to: int, skew: int)
    requires cfg.Limit() >= 1 && skew >= 0 && from < to && to - from > cfg.Window() - skew
    ensures var calls := Overrun(cfg, key, from, to, skew);
      && LastPasses(cfg, calls) && calls[..|calls| - 1] == Burst(key, from, cfg.Limit())
      && calls[|calls| - 1] == Call(key, to - 1, to - 1 + skew)
  {
    var n, calls := cfg.Limit(), Overrun(cfg, key, from, to, skew);
    OverrunClocked(cfg, key, from, to, skew);
    assert calls[..n] == Burst(key, from, n) && calls[n] == Call(key, to - 1, to - 1 + skew) && |calls| == n + 1;
    hide Clocked, LastPasses, Overrun, Recent, Times, Burst;
    BurstForgotten(key, from, n, calls[n].cleanedAt - cfg.Window());
    PassesExactly(cfg, calls, skew);
  }

  lemma OverrunClocked(cfg: Config, key: string, from: int, to: int, skew: int)
    requires cfg.Limit() >= 0 && skew >= 0 && from < to
    ensures Clocked(Overrun(cfg, key, from, to, skew), skew)
  {
    var calls, n := Overrun(cfg, key, from, to, skew), cfg.Limit();
    assert forall i | 0 <= i < n :: calls[i] == Call(key, from, from);
    assert calls[n] == Call(key, to - 1, to - 1 + skew) && |calls| == n + 1;
  }

  lemma {:induction false} NoneAdmitted(cfg: Config, calls: seq<Call>, key: string, from: int, to: int)
    requires from >= to || calls == []
    ensures AdmittedIn(cfg, calls, key, from, to) == 0
  {
    if calls != [] { NoneAdmitted(cfg, calls[..|calls| - 1], key, from, to); }
  }

  lemma NoRunBackwards(calls: seq<Call>, skew: int)
    requires Clocked(calls, skew)
    ensures skew < 0 ==> calls == []
  {
    assert |calls| > 0 ==> calls[0].now <= calls[0].now + skew;
  }

  /** Every run whose clean-ups read the clock at most `skew` late keeps the limit in a window exactly
      if the window is at most the configured one less the skew.  (A window may also hold no time,
      the limit may let nothing through, and with a negative skew there is no run but the empty one.) */
  lemma WindowBoundExactly(cfg: Config, key: string, from: int, to: int, skew: int)
    ensures (forall calls: seq<Call> | Clocked(calls, skew) ::
               AdmittedIn(cfg, calls, key, from, to) <= if cfg.Limit() < 0 then 0 else cfg.Limit())
       <==> to - from <= cfg.Window() - skew || from >= to || cfg.Limit() <= 0 || skew < 0
  {
    hide AdmittedIn;
    if to - from <= cfg.Window() - skew || from >= to || cfg.Limit() <= 0 || skew < 0 {
      forall calls: seq<Call> | Clocked(calls, skew)
        ensures AdmittedIn(cfg, calls, key, from, to) <= if cfg.Limit() < 0 then 0 else cfg.Limit()
      {
        if to - from <= cfg.Window() - skew {
          WindowBound(cfg, calls, skew, key, from, to);
        } else if from >= to || skew < 0 {
          NoRunBackwards(calls, skew);
          NoneAdmitted(cfg, calls, key, from, to);
        } else {
          NothingPasses(cfg, calls, key, from, to);
        }
      }
    } else {
      OverrunAdmitted(cfg, key, from, to, skew);
      var calls := Overrun(cfg, key, from, to, skew);
      assert Clocked(calls, skew) && AdmittedIn(cfg, calls, key, from, to) > cfg.Limit();
    }
  }

  lemma {:induction false} NothingPasses(cfg: Config, calls: seq<Call>, key: string, from: int, to: int)
    requires cfg.Limit() <= 0
    ensures AdmittedIn(cfg, calls, key, from, to) == 0
  {
    if calls != [] {
      var n := |calls| - 1;
      NothingPasses(cfg, calls[..n], key, from, to);
      assert |Of(Step(cfg, HistoryAfter(cfg, calls[..n]), calls[n]), calls[n].key)| > 0;
    }
  }

  /** The two clock readings of a call do matter: read a microsecond apart, they let a second request
      through in a window that allows one. */
  lemma SkewLosesTheBound()
    ensures var cfg, calls := Config(1, 1, 0), [Call("k", 0, 0), Call("k", TICKS - 1, TICKS)];
      Clocked(calls, 1) && AdmittedIn(cfg, calls, "k", 0, cfg.Window()) == 2
  {
    var cfg := Config(1, 1, 0);
    OverrunAdmitted(cfg, "k", 0, TICKS, 1);
    assert Burst("k", 0, 1) == [Call("k", 0, 0)];
    assert Overrun(cfg, "k", 0, TICKS, 1) == [Call("k", 0, 0), Call("k", TICKS - 1, TICKS)];
  }
}

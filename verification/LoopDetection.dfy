/** Loop detection over a bounded history of tool calls (exoclaw_loop_detection/policy.py). */
module LoopDetection {
  import opened Basics

  datatype Config = Config(historySize: int, criticalThreshold: int, circuitBreaker: int, detectRepeat: bool, detectPingPong: bool)

  /** A tool name and the fingerprint of its arguments. */
  datatype Call = Call(name: string, argsHash: string)

  // ----- The patterns -----

  /** The call `j` steps before the last. */
  function Back(h: seq<Call>, j: nat): Call
    requires j < |h|
  {
    h[|h| - 1 - j]
  }

  /** The last `k` calls are one and the same. */
  predicate EndsInRepeat(h: seq<Call>, k: int)
    requires h != []
  {
    |h| >= k && forall j :: 0 <= j < k ==> Back(h, j) == Back(h, 0)
  }

  /** `k` rounded up to a whole number of pairs. */
  function Pairs(k: int): int { k + k % 2 }

  /** The call `j` steps from the end of a run that alternates like the last two calls. */
  function Alternating(h: seq<Call>, j: nat): Call
    requires |h| >= 2
  {
    if j % 2 == 0 then Back(h, 0) else Back(h, 1)
  }

  /** Two different calls alternate over at least the last `k` calls. */
  predicate EndsInPingPong(h: seq<Call>, k: int) {
    && |h| >= 4 && |h| >= Pairs(k)
    && Back(h, 0) != Back(h, 1)
    && forall j :: 0 <= j < Pairs(k) ==> Back(h, j) == Alternating(h, j)
  }

  /** Whether a run with these calls behind it goes on. */
  predicate GoesOn(cfg: Config, calls: seq<Call>, iteration: int) {
    && iteration < cfg.circuitBreaker
    && (calls != [] ==>
          && !(cfg.detectRepeat && EndsInRepeat(calls, cfg.criticalThreshold))
          && !(cfg.detectPingPong && EndsInPingPong(calls, cfg.criticalThreshold)))
  }

  // ----- The window -----

  /** Python's `h[-n:]`: the last `n`, all of it for zero, without its first `-n` for a negative `n`. */
  function FromBack(h: seq<Call>, n: int): seq<Call> {
    if n > 0 then h[Max(0, |h| - n)..] else h[Min(-n, |h|)..]
  }

  /** What the policy remembers of a trace. */
  function Remembered(cfg: Config, trace: seq<Call>): seq<Call> {
    if cfg.historySize < 0 then [] else FromBack(trace, cfg.historySize)
  }

  class LoopDetectionPolicy {
    const config: Config
    var history: seq<Call>
    /** Every call recorded since the last reset. */
    ghost var trace: seq<Call>

    ghost predicate Valid()
      reads this
    {
      history == Remembered(config, trace)
    }

    constructor (config: Config)
      ensures Valid() && this.config == config && trace == []
    {
      this.config := config;
      history := [];
      trace := [];
    }

    method Record(name: string, argsHash: string)
      requires Valid()
      modifies this
      ensures Valid() && trace == old(trace) + [Call(name, argsHash)]
    {
      history := history + [Call(name, argsHash)];
      if |history| > config.historySize {
        history := FromBack(history, config.historySize);
      }
      trace := trace + [Call(name, argsHash)];
    }

    method Reset()
      modifies this
      ensures Valid() && trace == []
    {
      history := [];
      trace := [];
    }

    /** The answer is the one for the remembered calls, and for the whole trace if the window is large enough. */
    method ShouldContinue(iteration: int) returns (r: bool)
      requires Valid()
      ensures r == GoesOn(config, Remembered(config, trace), iteration)
      ensures LargeEnough(config) ==> r == GoesOn(config, trace, iteration)
    {
      hide EndsInRepeat, EndsInPingPong;
      if LargeEnough(config) {
        LargeWindowSeesAll(config, trace, iteration);
      }
      if iteration >= config.circuitBreaker {
        return false;
      }
      var window := FromBack(history, config.historySize);
      assert window == history;
      if window == [] {
        return true;
      }
      var k := config.criticalThreshold;
      if config.detectRepeat && |window| >= k {
        var repeat := HasStreak(window, k);
        if repeat {
          return false;
        }
      }
      TooShort(window, k);
      if config.detectPingPong && |window| >= k {
        if |window| >= 4 {
          var pingPong := HasCycles(window, k);
          if pingPong {
            return false;
          }
        }
      }
      return true;
    }
  }

  lemma TooShort(h: seq<Call>, k: int)
    requires h != []
    ensures |h| < k ==> !EndsInRepeat(h, k) && !EndsInPingPong(h, k)
    ensures |h| < 4 ==> !EndsInPingPong(h, k)
  {
  }

  /** The streak loop. */
  method HasStreak(h: seq<Call>, k: int) returns (r: bool)
    requires h != [] && |h| >= k
    ensures r == EndsInRepeat(h, k)
  {
    var last := h[|h| - 1];
    var streak := 0;
    while streak < |h| && h[|h| - 1 - streak] == last
      invariant 0 <= streak <= |h|
      invariant forall j :: 0 <= j < streak ==> Back(h, j) == last
    {
      streak := streak + 1;
    }
    r := streak >= k;
    assert streak < |h| ==> Back(h, streak) != Back(h, 0);
  }

  /** The cycle loop. */
  method HasCycles(h: seq<Call>, k: int) returns (r: bool)
    requires |h| >= 4 && |h| >= k
    ensures r == EndsInPingPong(h, k)
  {
    var a, b := h[|h| - 2], h[|h| - 1];
    if a == b {
      return false;
    }
    var cycles := 0;
    var i := |h| - 1;
    while i > 0 && h[i] == b && h[i - 1] == a
      invariant cycles == |h| - 1 - i && cycles % 2 == 0 && -1 <= i < |h|
      invariant forall j :: 0 <= j < cycles ==> Back(h, j) == Alternating(h, j)
      decreases i
    {
      assert Back(h, cycles) == Alternating(h, cycles) && Back(h, cycles + 1) == Alternating(h, cycles + 1);
      cycles := cycles + 2;
      i := i - 2;
    }
    r := cycles >= k;
    if cycles < Pairs(k) <= |h| {
      assert Back(h, cycles) != Alternating(h, cycles) || Back(h, cycles + 1) != Alternating(h, cycles + 1);
    }
  }

  // ----- How large the window must be -----

  /** The window holds at least `n` calls; size zero keeps everything, a negative size nothing. */
  predicate Holds(cfg: Config, n: int) {
    cfg.historySize == 0 || cfg.historySize >= n
  }

  predicate LargeEnough(cfg: Config) {
    if cfg.detectRepeat && cfg.criticalThreshold <= 1 then Holds(cfg, 1)
    else
      && (cfg.detectRepeat ==> Holds(cfg, cfg.criticalThreshold))
      && (cfg.detectPingPong ==> Holds(cfg, Max(4, Pairs(cfg.criticalThreshold))))
  }

  lemma SuffixBack(h: seq<Call>, n: nat, j: nat)
    requires j < n <= |h|
    ensures Back(h[|h| - n..], j) == Back(h, j)
  {
  }

  lemma SuffixRepeats(h: seq<Call>, n: nat, k: int)
    requires h != [] && 1 <= n <= |h| && n >= k
    ensures EndsInRepeat(h[|h| - n..], k) == EndsInRepeat(h, k)
  {
    hide Back;
    var w := h[|h| - n..];
    forall j: nat | j < n
      ensures Back(w, j) == Back(h, j)
    {
      SuffixBack(h, n, j);
    }
  }

  lemma SuffixAlternates(h: seq<Call>, n: nat, k: int)
    requires n <= |h| && n >= 4 && n >= Pairs(k)
    ensures EndsInPingPong(h[|h| - n..], k) == EndsInPingPong(h, k)
  {
    hide Back;
    var w := h[|h| - n..];
    forall j: nat | j < n
      ensures Back(w, j) == Back(h, j)
    {
      SuffixBack(h, n, j);
    }
  }

  lemma LargeWindowSeesAll(cfg: Config, trace: seq<Call>, iteration: int)
    requires LargeEnough(cfg)
    ensures GoesOn(cfg, Remembered(cfg, trace), iteration) == GoesOn(cfg, trace, iteration)
  {
    hide EndsInRepeat, EndsInPingPong;
    var n := cfg.historySize;
    if n <= 0 || |trace| <= n {
      if n >= 0 {
        assert Remembered(cfg, trace) == trace;
      } else {
        assert !cfg.detectRepeat && !cfg.detectPingPong;
      }
    } else {
      if cfg.detectRepeat {
        SuffixRepeats(trace, n, cfg.criticalThreshold);
      }
      if cfg.detectRepeat && cfg.criticalThreshold <= 1 {
        AnyCallRepeats(trace, cfg.criticalThreshold);
      } else if cfg.detectPingPong {
        SuffixAlternates(trace, n, cfg.criticalThreshold);
      }
    }
  }

  lemma AnyCallRepeats(h: seq<Call>, k: int)
    requires h != [] && k <= 1
    ensures EndsInRepeat(h, k)
  {
  }

  const PING := Call("a", "")
  const PONG := Call("b", "")

  /** `n` calls, all alike or taking turns. */
  function Trace(n: nat, alternate: bool): (r: seq<Call>)
    ensures |r| == n
  {
    seq(n, i => if alternate && i % 2 == 1 then PONG else PING)
  }

  lemma SameCallsRepeat(k: nat)
    requires k >= 1
    ensures EndsInRepeat(Trace(k, false), k)
  {
  }

  lemma TurnsAlternate(k: int, n: nat)
    requires n == Max(4, Pairs(k))
    ensures EndsInPingPong(Trace(n, true), k)
    ensures k >= 2 ==> !EndsInRepeat(Trace(n, true), k)
  {
    var h := Trace(n, true);
    assert n % 2 == 0;
    assert Back(h, 0) == PONG && Back(h, 1) == PING;
  }

  /** A window that is too small forgets what it takes to see a pattern of `n` calls. */
  lemma ShortMemory(cfg: Config, trace: seq<Call>)
    requires trace != [] && !Holds(cfg, |trace|)
    ensures |Remembered(cfg, trace)| < |trace|
    ensures Remembered(cfg, trace) == [] || Remembered(cfg, trace) == trace[|trace| - |Remembered(cfg, trace)|..]
  {
  }

  lemma SmallWindowMissesRepeat(cfg: Config)
    requires cfg.detectRepeat && !Holds(cfg, Max(1, cfg.criticalThreshold))
    ensures var trace := Trace(Max(1, cfg.criticalThreshold), false);
      GoesOn(cfg, Remembered(cfg, trace), cfg.circuitBreaker - 1) && !GoesOn(cfg, trace, cfg.circuitBreaker - 1)
  {
    hide EndsInRepeat, EndsInPingPong, Remembered;
    var k := cfg.criticalThreshold;
    var trace := Trace(Max(1, k), false);
    if k >= 1 {
      SameCallsRepeat(k);
    } else {
      AnyCallRepeats(trace, k);
    }
    ShortMemory(cfg, trace);
    if Remembered(cfg, trace) != [] {
      TooShort(Remembered(cfg, trace), k);
    }
  }

  lemma ForgottenTurns(k: int, n: nat, m: nat)
    requires n == Max(4, Pairs(k)) && 0 < m < n
    ensures !EndsInPingPong(Trace(n, true)[n - m..], k)
    ensures k >= 2 ==> !EndsInRepeat(Trace(n, true)[n - m..], k)
  {
    var h := Trace(n, true);
    var w := h[n - m..];
    assert Back(h, 0) == PONG && Back(h, 1) == PING;
    assert m >= 2 ==> Back(w, 0) == PONG && Back(w, 1) == PING;
  }

  lemma SmallWindowMissesPingPong(cfg: Config)
    requires cfg.detectPingPong && !Holds(cfg, Max(4, Pairs(cfg.criticalThreshold)))
    requires cfg.detectRepeat ==> cfg.criticalThreshold > 1
    ensures var trace := Trace(Max(4, Pairs(cfg.criticalThreshold)), true);
      GoesOn(cfg, Remembered(cfg, trace), cfg.circuitBreaker - 1) && !GoesOn(cfg, trace, cfg.circuitBreaker - 1)
  {
    hide EndsInRepeat, EndsInPingPong, Remembered;
    var k := cfg.criticalThreshold;
    var n := Max(4, Pairs(k));
    var trace := Trace(n, true);
    TurnsAlternate(k, n);
    ShortMemory(cfg, trace);
    if Remembered(cfg, trace) != [] {
      ForgottenTurns(k, n, |Remembered(cfg, trace)|);
    }
  }

  ghost predicate SeesAll(cfg: Config) {
    forall trace, iteration :: GoesOn(cfg, Remembered(cfg, trace), iteration) == GoesOn(cfg, trace, iteration)
  }

  /** The bounded history answers like the whole trace on every trace exactly when the window is large enough. */
  lemma WindowSeesAllExactlyWhenLarge(cfg: Config)
    ensures SeesAll(cfg) <==> LargeEnough(cfg)
  {
    hide GoesOn, Remembered;
    if LargeEnough(cfg) {
      forall trace, iteration
        ensures GoesOn(cfg, Remembered(cfg, trace), iteration) == GoesOn(cfg, trace, iteration)
      {
        LargeWindowSeesAll(cfg, trace, iteration);
      }
    } else if cfg.detectRepeat && !Holds(cfg, Max(1, cfg.criticalThreshold)) {
      SmallWindowMissesRepeat(cfg);
    } else {
      SmallWindowMissesPingPong(cfg);
    }
  }

  // ----- Cycles, as documented and as counted -----

  /** The trace ends in `c` rounds of two different calls, the documented meaning of `c` ping-pong cycles. */
  predicate EndsInCycles(h: seq<Call>, c: int) {
    |h| >= 2 && |h| >= 2 * c && Back(h, 0) != Back(h, 1) && forall j :: 0 <= j < 2 * c ==> Back(h, j) == Alternating(h, j)
  }

  /** The code asks for half as many rounds, rounded up, and for four calls in all. */
  lemma ThresholdCountsCalls(h: seq<Call>, k: int)
    ensures EndsInPingPong(h, k) <==> |h| >= 4 && EndsInCycles(h, (k + 1) / 2)
  {
    assert Pairs(k) == 2 * ((k + 1) / 2);
  }

  /** An unbroken ping-pong is stopped after half the documented number of cycles, rounded up, but never before two. */
  lemma StopsAtHalfTheCycles(k: int, c: nat)
    ensures EndsInPingPong(Trace(2 * c, true), k) <==> c >= Max(2, (k + 1) / 2)
  {
    var h := Trace(2 * c, true);
    if c >= 2 {
      assert Back(h, 0) == PONG && Back(h, 1) == PING;
    }
  }

  /** The code and the documentation agree on every trace for no threshold from one on. */
  lemma NoThresholdIsDocumented(k: int) returns (h: seq<Call>)
    requires k >= 1
    ensures EndsInPingPong(h, k) != EndsInCycles(h, k)
  {
    if k == 1 {
      h := Trace(2, true);
    } else if k == 2 {
      h := [PING, PING, PING, PONG];
      assert Back(h, 0) == PONG && Back(h, 1) == PING && Back(h, 2) == PING;
      assert Alternating(h, 2) == PONG;
    } else {
      h := Trace(Max(4, Pairs(k)), true);
      TurnsAlternate(k, Max(4, Pairs(k)));
    }
  }

  // ----- The plain cases -----

  /** From the breaker's iteration on nothing goes on; before it, without patterns to look for, everything does. */
  lemma BreakerIsExact(cfg: Config, h: seq<Call>, iteration: int)
    ensures iteration >= cfg.circuitBreaker ==> !GoesOn(cfg, h, iteration)
    ensures iteration < cfg.circuitBreaker && (h == [] || (!cfg.detectRepeat && !cfg.detectPingPong)) ==> GoesOn(cfg, h, iteration)
  {
  }

  /** A call made as often as the threshold says stops the run; made once less, after another call, it does not. */
  lemma StreakStopsExactlyAtTheThreshold(cfg: Config, before: seq<Call>, c: Call, n: nat, iteration: int)
    requires n >= 1 && iteration < cfg.circuitBreaker && cfg.detectRepeat && !cfg.detectPingPong
    requires before != [] ==> before[|before| - 1] != c
    ensures GoesOn(cfg, before + seq(n, _ => c), iteration) <==> n < cfg.criticalThreshold
  {
    var h := before + seq(n, _ => c);
    assert forall j :: 0 <= j < n ==> Back(h, j) == c;
    if before != [] {
      assert Back(h, n) == before[|before| - 1];
    }
  }

  /** Two calls taking turns stop the run once the turns taken reach the threshold, and not before. */
  lemma PingPongStopsExactlyAtTheThreshold(cfg: Config, a: Call, b: Call, n: nat, iteration: int)
    requires n >= 4 && n % 2 == 0 && a != b && iteration < cfg.circuitBreaker && !cfg.detectRepeat && cfg.detectPingPong
    ensures GoesOn(cfg, seq(n, i => if i % 2 == 0 then a else b), iteration) <==> n < cfg.criticalThreshold
  {
    var h := seq(n, i => if i % 2 == 0 then a else b);
    forall j | 0 <= j < n
      ensures Back(h, j) == if j % 2 == 0 then b else a
    {
    }
    assert Back(h, 0) == b && Back(h, 1) == a;
  }
}

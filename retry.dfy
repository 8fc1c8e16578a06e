/** The bounded exponential-backoff retry loop shared by zipSession and
    unzipSession, as a state machine driven by an oracle of per-attempt
    outcomes. Attempt number k runs while the counter `retries` equals k;
    an attempt index past the end of the oracle counts as a failure. */
module Retry {

  /** MAX_RETRIES */
  const MaxRetries: nat := 5

  function Pow2(k: nat): (p: nat)
    ensures p >= 1
  {
    if k == 0 then 1 else 2 * Pow2(k - 1)
  }

  /** The sleep requested after failed attempt `retries`, in milliseconds. */
  function BackoffDelay(retries: nat): nat
  {
    Pow2(retries) * 1000
  }

  /** The delays recorded by a run whose counter has reached `n`. */
  function Schedule(n: nat): (ds: seq<nat>)
    ensures |ds| == n
  {
    if n == 0 then [] else Schedule(n - 1) + [BackoffDelay(n - 1)]
  }

  function Sum(ds: seq<nat>): nat
  {
    if ds == [] then 0 else Sum(ds[..|ds| - 1]) + ds[|ds| - 1]
  }

  predicate AttemptSucceeds(outcomes: seq<bool>, k: nat)
  {
    k < |outcomes| && outcomes[k]
  }

  /** The loop's variables: the counter, the success flag, whether the
      loop left through its `break`, and the delays slept so far. */
  datatype LoopState = LoopState(retries: nat, succeeded: bool, exhausted: bool, delays: seq<nat>)
  {
    predicate Running()
    {
      !succeeded && !exhausted
    }

    /** Number of attempts a finished run made. */
    function Attempts(): nat
    {
      retries + 1
    }
  }

  const Start := LoopState(0, false, false, [])

  /** One pass through the loop body after an attempt with result `ok`. */
  function Step(s: LoopState, ok: bool): LoopState
    requires s.Running()
  {
    if ok then s.(succeeded := true)
    else if s.retries > MaxRetries then s.(exhausted := true)
    else s.(retries := s.retries + 1, delays := s.delays + [BackoffDelay(s.retries)])
  }

  /** What holds of every state the loop reaches. */
  predicate Consistent(outcomes: seq<bool>, s: LoopState)
  {
    && s.retries <= MaxRetries + 1
    && s.delays == Schedule(s.retries)
    && (forall k :: 0 <= k < s.retries ==> !AttemptSucceeds(outcomes, k))
    && (s.succeeded ==> !s.exhausted && AttemptSucceeds(outcomes, s.retries))
    && (s.exhausted ==> s.retries == MaxRetries + 1 && !AttemptSucceeds(outcomes, s.retries))
  }

  /** Runs the loop from `s` until it stops. */
  function RunFrom(outcomes: seq<bool>, s: LoopState): (r: LoopState)
    requires Consistent(outcomes, s)
    ensures Consistent(outcomes, r) && !r.Running()
    decreases MaxRetries + 1 - s.retries, if s.Running() then 1 else 0
  {
    if !s.Running() then s
    else RunFrom(outcomes, Step(s, AttemptSucceeds(outcomes, s.retries)))
  }

  /** One more pass through the loop keeps its state consistent and does
      not change where the run ends. */
  lemma StepPreserves(outcomes: seq<bool>, s: LoopState)
    requires Consistent(outcomes, s) && s.Running()
    ensures var t := Step(s, AttemptSucceeds(outcomes, s.retries));
      Consistent(outcomes, t) && RunFrom(outcomes, t) == RunFrom(outcomes, s)
  {
  }

  /** The final state of the loop for a given oracle: it stops, either right
      after the first successful attempt or by the `break` once the attempt
      made with `retries == MaxRetries + 1` has failed, and it has slept
      the doubling delays 1000, 2000, ... ms once per failed attempt before it. */
  function Run(outcomes: seq<bool>): (r: LoopState)
    ensures !r.Running() && r.succeeded == !r.exhausted
    ensures r.retries <= MaxRetries + 1
    ensures r.delays == Schedule(r.retries)
    ensures forall k :: 0 <= k < r.retries ==> !AttemptSucceeds(outcomes, k)
    ensures r.succeeded <==> AttemptSucceeds(outcomes, r.retries)
    ensures r.exhausted ==> r.retries == MaxRetries + 1
  {
    RunFrom(outcomes, Start)
  }

  /** Delay k is 2^k seconds: 1000 ms first, then each one double the last. */
  lemma {:induction false} ScheduleDoubles(n: nat, k: nat)
    requires k < n
    ensures Schedule(n)[k] == BackoffDelay(k)
    ensures Schedule(n)[0] == 1000
    ensures k + 1 < n ==> Schedule(n)[k + 1] == 2 * Schedule(n)[k]
  {
    if k + 1 < n {
      ScheduleDoubles(n - 1, k);
    } else if k + 1 == n && k > 0 {
      ScheduleDoubles(n - 1, k - 1);
    }
    if 0 < n - 1 {
      ScheduleDoubles(n - 1, 0);
    }
  }

  /** The run succeeds exactly when one of the attempts it may make
      (indices 0 .. MaxRetries + 1) succeeds. */
  lemma SucceedsIffSomeAttemptSucceeds(outcomes: seq<bool>)
    ensures Run(outcomes).succeeded <==> exists k :: 0 <= k <= MaxRetries + 1 && AttemptSucceeds(outcomes, k)
  {
  }

  /** Early exit: the loop stops right after the first successful attempt. */
  lemma StopsAfterFirstSuccess(outcomes: seq<bool>, k: nat)
    requires k <= MaxRetries + 1 && AttemptSucceeds(outcomes, k)
    requires forall j :: 0 <= j < k ==> !AttemptSucceeds(outcomes, j)
    ensures Run(outcomes) == LoopState(k, true, false, Schedule(k))
    ensures Run(outcomes).Attempts() == k + 1
  {
  }

  /** A first attempt that succeeds ends the loop: one attempt, no delay,
      `retries` still 0. */
  lemma FirstAttemptSucceeds(outcomes: seq<bool>)
    requires AttemptSucceeds(outcomes, 0)
    ensures Run(outcomes) == LoopState(0, true, false, [])
    ensures Run(outcomes).Attempts() == 1
  {
  }

  /** An operation that always fails is attempted MaxRetries + 2 = 7 times,
      sleeping MaxRetries + 1 = 6 times for 1, 2, 4, 8, 16 and 32 seconds,
      and the loop then gives up without raising anything. */
  lemma AlwaysFailing(outcomes: seq<bool>)
    requires forall k :: 0 <= k <= MaxRetries + 1 ==> !AttemptSucceeds(outcomes, k)
    ensures Run(outcomes).exhausted && !Run(outcomes).succeeded
    ensures Run(outcomes).retries == MaxRetries + 1
    ensures Run(outcomes).Attempts() == MaxRetries + 2 == 7
    ensures Run(outcomes).delays == [1000, 2000, 4000, 8000, 16000, 32000]
  {
    var r := Run(outcomes);
    assert !AttemptSucceeds(outcomes, r.retries);
    assert Schedule(1) == [1000];
    assert Schedule(2) == [1000, 2000];
    assert Schedule(3) == [1000, 2000, 4000];
    assert Schedule(4) == [1000, 2000, 4000, 8000];
    assert Schedule(5) == [1000, 2000, 4000, 8000, 16000];
  }

  /** Sleeping through the whole schedule up to `n` takes (2^n - 1) seconds. */
  lemma {:induction false} ScheduleTotal(n: nat)
    ensures Sum(Schedule(n)) == (Pow2(n) - 1) * 1000
  {
    if n > 0 {
      var ds := Schedule(n);
      assert ds[..|ds| - 1] == Schedule(n - 1);
      ScheduleTotal(n - 1);
    }
  }

  /** Whatever the outcomes, a run sleeps at most 63 seconds in all. */
  lemma WorstCaseWait(outcomes: seq<bool>)
    ensures Sum(Run(outcomes).delays) <= 63000
  {
    var r := Run(outcomes);
    ScheduleTotal(r.retries);
    Pow2Monotone(r.retries, MaxRetries + 1);
    assert Pow2(6) == 64;
  }

  lemma {:induction false} Pow2Monotone(a: nat, b: nat)
    requires a <= b
    ensures Pow2(a) <= Pow2(b)
  {
    if a < b {
      Pow2Monotone(a, b - 1);
    }
  }
}

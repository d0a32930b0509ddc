/**
 * The retry loop the changeset stream and the minute stream run around a fetch, with
 * its doubling delay and the `interval_fudge` it feeds, and the pacing sleep the
 * minute stream takes before asking for the next state file. Seconds are exact
 * rationals here; the source computes them with floats and `timedelta`.
 */
module Backoff {
  import opened Wrappers
  import opened Records

  /** The cap `min(delay * 2, 13)` puts on the delay. */
  const MaxDelay: real := 13.0

  function Min(a: real, b: real): real {
    if a <= b then a else b
  }

  function Pow2(k: nat): real {
    if k == 0 then 1.0 else 2.0 * Pow2(k - 1)
  }

  lemma {:induction false} Pow2AtLeastOne(k: nat)
    ensures Pow2(k) >= 1.0
  {
    if k > 0 {
      Pow2AtLeastOne(k - 1);
    }
  }

  /** The value of `delay` after `k` consecutive 404s: it starts at 1 and doubles up to 13. */
  function DelayAfter(k: nat): real {
    Min(Pow2(k), MaxDelay)
  }

  lemma {:induction false} Pow2Grows(k: nat)
    ensures k <= 3 ==> Pow2(k) <= 8.0
    ensures k >= 4 ==> Pow2(k) >= 16.0
  {
    if k > 0 {
      Pow2Grows(k - 1);
      Pow2AtLeastOne(k - 1);
    }
  }

  /** The delay stays between 1 and 13, reaches 13 at the fourth 404 and never leaves it. */
  lemma DelayBounds(k: nat)
    ensures 1.0 <= DelayAfter(k) <= MaxDelay
    ensures k <= 3 ==> DelayAfter(k) == Pow2(k)
    ensures k >= 4 ==> DelayAfter(k) == MaxDelay
  {
    Pow2AtLeastOne(k);
    Pow2Grows(k);
  }

  /** The closed form agrees with the step `delay = min(delay * 2, 13)`. */
  lemma DelayStep(k: nat)
    ensures DelayAfter(k + 1) == Min(2.0 * DelayAfter(k), MaxDelay)
  {
  }

  /** What `k` consecutive 404s add to the fudge: each adds the delay after its own doubling. */
  function FudgeAdded(k: nat): real {
    if k == 0 then 0.0 else FudgeAdded(k - 1) + DelayAfter(k)
  }

  /** In closed form: 2, 6, 14 for the first three 404s, then 13 more for each further one. */
  lemma {:induction false} FudgeAddedClosed(k: nat)
    ensures k <= 3 ==> FudgeAdded(k) == 2.0 * Pow2(k) - 2.0
    ensures k >= 3 ==> FudgeAdded(k) == 14.0 + 13.0 * (k - 3) as real
  {
    if k > 0 {
      FudgeAddedClosed(k - 1);
      DelayBounds(k);
    }
  }

  /** The sleeps taken during `k` consecutive 404s: the i-th (from 0) is `DelayAfter(i)`. */
  function Sleeps(k: nat): (r: seq<real>)
    ensures |r| == k
  {
    if k == 0 then [] else Sleeps(k - 1) + [DelayAfter(k - 1)]
  }

  lemma {:induction false} SleepsAre(k: nat)
    ensures forall i :: 0 <= i < k ==> Sleeps(k)[i] == DelayAfter(i)
    ensures forall i :: 0 <= i < k ==> 1.0 <= Sleeps(k)[i] <= MaxDelay
  {
    if k > 0 {
      SleepsAre(k - 1);
      forall i | 0 <= i < k ensures 1.0 <= Sleeps(k)[i] <= MaxDelay {
        DelayBounds(i);
      }
    }
  }

  /** What one `urlopen` gives: a body, an `HTTPError` with its status, or a `URLError`. */
  datatype Outcome<T> = Body(content: T) | HttpStatus(code: int) | Unreachable

  /** An outcome that ends the retry loop: a body, or an exception the loop does not catch. */
  predicate Settles<T>(o: Outcome<T>) {
    o.Body? || o.Unreachable?
  }

  predicate IsNotFound<T>(o: Outcome<T>) {
    o.HttpStatus? && o.code == 404
  }

  /** The index of the first outcome that ends the retry loop, or `|outcomes|` when none does. */
  function Settling<T>(outcomes: seq<Outcome<T>>): (t: nat)
    ensures t <= |outcomes|
    ensures forall j :: 0 <= j < t ==> !Settles(outcomes[j])
    ensures t < |outcomes| ==> Settles(outcomes[t])
  {
    if outcomes == [] then 0
    else if Settles(outcomes[0]) then 0
    else 1 + Settling(outcomes[1..])
  }

  function NotFounds<T>(outcomes: seq<Outcome<T>>): nat {
    if outcomes == [] then 0
    else NotFounds(outcomes[..|outcomes| - 1]) + (if IsNotFound(outcomes[|outcomes| - 1]) then 1 else 0)
  }

  /** How a retried fetch ends: with a body, with an exception, or still retrying when the outcomes run out. */
  datatype Fetched<T> = Got(content: T) | Raised(error: Error) | Retrying

  /** The end of a retried fetch over `outcomes`, as the first settling outcome decides it. */
  function FetchedOf<T>(outcomes: seq<Outcome<T>>): Fetched<T> {
    var t := Settling(outcomes);
    if t == |outcomes| then Retrying
    else if outcomes[t].Body? then Got(outcomes[t].content)
    else Raised(NetworkError)
  }

  /** A fetch without the retry loop: any HTTP error is raised to the caller. */
  function FetchOnce<T>(o: Outcome<T>): (r: Result<T, Error>)
    ensures r.Ok? <==> o.Body?
    ensures o.HttpStatus? ==> r == Err(HttpError(o.code))
  {
    match o
    case Body(c) => Ok(c)
    case HttpStatus(code) => Err(HttpError(code))
    case Unreachable => Err(NetworkError)
  }

  /**
   * The retry state of one stream: `delay`, reset to 1 before each retried fetch, and
   * `interval_fudge`, kept for the life of the stream.
   */
  class Fetcher {
    var delay: real
    var fudge: real
    /** The 404s seen since the delay was last reset. */
    ghost var misses: nat

    ghost predicate Valid()
      reads this
    {
      delay == DelayAfter(misses) && fudge >= 0.0
    }

    /** `interval_fudge = 0.0`, with the delay as a fetch starts it. */
    constructor()
      ensures Valid() && misses == 0 && delay == 1.0 && fudge == 0.0
    {
      delay := 1.0;
      fudge := 0.0;
      misses := 0;
    }

    /** `delay = 1.0` before a retried fetch. */
    method Reset()
      requires Valid()
      modifies this
      ensures Valid() && misses == 0 && delay == 1.0 && fudge == old(fudge)
    {
      delay := 1.0;
      misses := 0;
    }

    /** A 404: sleep for the current delay, double it up to 13 and add the new delay to the fudge. */
    method OnNotFound() returns (sleep: real)
      requires Valid()
      modifies this
      ensures Valid() && misses == old(misses) + 1
      ensures sleep == old(delay) && 1.0 <= sleep <= MaxDelay
      ensures delay == Min(2.0 * old(delay), MaxDelay)
      ensures fudge == old(fudge) + delay
    {
      DelayBounds(misses);
      DelayStep(misses);
      DelayBounds(misses + 1);
      sleep := delay;
      delay := Min(delay * 2.0, MaxDelay);
      fudge := fudge + delay;
      misses := misses + 1;
    }

    /** A successful fetch halves the fudge. */
    method OnSuccess()
      requires Valid()
      modifies this
      ensures Valid() && misses == old(misses) && delay == old(delay)
      ensures fudge == old(fudge) / 2.0 && fudge <= old(fudge)
    {
      fudge := fudge - fudge / 2.0;
    }

    /**
     * The retried fetch (`while True: try: urlopen ...`): a 404 sleeps and backs off,
     * any other HTTP error is retried at once with nothing changed, a body or a
     * `URLError` ends the loop. Returns how it ended and the sleeps taken.
     */
    method Retrieve<T>(outcomes: seq<Outcome<T>>) returns (r: Fetched<T>, sleeps: seq<real>)
      requires Valid()
      modifies this
      ensures Valid()
      ensures r == FetchedOf(outcomes)
      ensures misses == NotFounds(outcomes[..Settling(outcomes)])
      ensures sleeps == Sleeps(misses) && delay == DelayAfter(misses)
      ensures fudge == if r.Got? then (old(fudge) + FudgeAdded(misses)) / 2.0
                       else old(fudge) + FudgeAdded(misses)
    {
      Reset();
      var start := fudge;
      sleeps := [];
      var i := 0;
      while i < |outcomes|
        invariant 0 <= i <= |outcomes| && Valid()
        invariant forall j :: 0 <= j < i ==> !Settles(outcomes[j])
        invariant misses == NotFounds(outcomes[..i])
        invariant sleeps == Sleeps(misses)
        invariant fudge == start + FudgeAdded(misses)
      {
        assert outcomes[..i + 1][..i] == outcomes[..i];
        match outcomes[i]
        case Body(content) =>
          assert Settling(outcomes) == i;
          OnSuccess();
          return Got(content), sleeps;
        case Unreachable =>
          assert Settling(outcomes) == i;
          return Raised(NetworkError), sleeps;
        case HttpStatus(code) =>
          if code == 404 {
            var s := OnNotFound();
            sleeps := sleeps + [s];
          }
          i := i + 1;
      }
      assert outcomes[..i] == outcomes;
      r := Retrying;
    }
  }

  /** A stream of successes halves the fudge each time: what 404s add decays away. */
  function Halved(fudge: real, n: nat): (r: real)
    ensures fudge >= 0.0 ==> 0.0 <= r <= fudge
  {
    if n == 0 then fudge else Halved(fudge, n - 1) / 2.0
  }

  lemma {:induction false} HalvedClosed(fudge: real, n: nat)
    ensures Halved(fudge, n) * Pow2(n) == fudge
  {
    if n > 0 {
      HalvedClosed(fudge, n - 1);
    }
  }

  /** The moment the next sequence is expected: `stateTs + expected_interval + interval_fudge`. */
  function NextTarget(stateTs: real, expectedInterval: real, fudge: real): real {
    stateTs + expectedInterval + fudge
  }

  /**
   * The sleep before the next state file, with the clock read once: never negative,
   * zero once the target has passed, and otherwise exactly long enough to wake at it.
   */
  function SleepTime(target: real, now: real): (t: real)
    ensures t >= 0.0
    ensures t == 0.0 <==> now >= target
    ensures t > 0.0 ==> now + t == target
  {
    if now < target then target - now else 0.0
  }

  /**
   * The sleep as the source computes it: the clock is read once for the comparison
   * (`before`) and again for the difference (`after`).
   */
  function SleepTimeAsWritten(target: real, before: real, after: real): real {
    if before < target then target - after else 0.0
  }

  /**
   * The two readings can straddle the target; then the duration is negative and
   * `time.sleep` refuses it.
   */
  lemma SleepTimeAsWrittenNegative(target: real, before: real, after: real)
    ensures SleepTimeAsWritten(target, before, after) < 0.0 <==> before < target < after
  {
  }

  /** A concrete case: target 60, clock 59.5 at the comparison and 60.25 at the subtraction. */
  lemma SleepTimeAsWrittenCounterexample()
    ensures SleepTimeAsWritten(60.0, 59.5, 60.25) == -0.25
    ensures SleepTime(60.0, 59.5) == 0.5 && SleepTime(60.0, 60.25) == 0.0
  {
  }

  /** With a single reading the as-written formula is the corrected one. */
  lemma SleepTimeOneReading(target: real, now: real)
    ensures SleepTimeAsWritten(target, now, now) == SleepTime(target, now)
  {
  }

  /** The pacing step as written: `time.sleep(timeToSleep)` raises on a negative duration. */
  function PaceAsWritten(target: real, before: real, after: real): (r: Result<real, Error>)
    ensures r.Err? <==> before < target < after
    ensures r.Ok? ==> r.value >= 0.0
  {
    var t := SleepTimeAsWritten(target, before, after);
    if t < 0.0 then Err(NegativeSleep) else Ok(t)
  }

  /** The pacing step with one clock reading: it never fails and never oversleeps the target. */
  function Pace(target: real, now: real): (r: Result<real, Error>)
    ensures r.Ok? && r.value >= 0.0
    ensures now < target ==> now + r.value == target
  {
    Ok(SleepTime(target, now))
  }
}

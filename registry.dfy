/** `pushImageToRegistry` (dockerbuild/docker-registry.go): `docker push`
    retried up to three times. The outcome of the `k`-th run of the command
    is the parameter `run(k)`: `None` for success, `Some(e)` for the error `e`. */
module Registry {
  import opened Wrappers

  /** The warning logged after a failed run, with the retries then remaining. */
  datatype PushWarning = PushFailed(image: string, retriesRemaining: int)

  const Attempts := 3

  /** The index of the first successful run among the runs `k` to 2, or 3 when they all fail. */
  function FirstSuccess(run: nat -> Option<string>, k: nat): (r: nat)
    requires k <= Attempts
    ensures k <= r <= Attempts
    ensures r < Attempts ==> run(r).None?
    ensures forall j :: k <= j < r ==> run(j).Some?
    decreases Attempts - k
  {
    if k == Attempts then Attempts
    else if run(k).None? then k
    else FirstSuccess(run, k + 1)
  }

  /** The warnings of the first `n` runs when they all failed: the remaining
      retries count down from 2. */
  function FailureWarnings(image: string, n: nat): (w: seq<PushWarning>)
    ensures |w| == n && forall j :: 0 <= j < n ==> w[j] == PushFailed(image, 2 - j)
  {
    seq(n, j => PushFailed(image, 2 - j))
  }

  /** The error the push reports: none once a run succeeds, the last one otherwise. */
  function PushError(run: nat -> Option<string>): Option<string> {
    if FirstSuccess(run, 0) < Attempts then None else run(Attempts - 1)
  }

  /** The number of runs: up to and including the first success, at most three. */
  function PushAttempts(run: nat -> Option<string>): nat {
    if FirstSuccess(run, 0) < Attempts then FirstSuccess(run, 0) + 1 else Attempts
  }

  /** Lines 9-31. Every run is `docker push image`; the first success ends the
      loop with no error, and after three failures the last error is returned.
      Each failure, the last one included, logs one warning. */
  method PushImageToRegistry(image: string, run: nat -> Option<string>)
    returns (err: Option<string>, commands: seq<seq<string>>, warnings: seq<PushWarning>)
    ensures forall c :: c in commands ==> c == ["push", image]
    ensures err.None? <==> FirstSuccess(run, 0) < Attempts
    ensures err.None? ==> |commands| == FirstSuccess(run, 0) + 1
    ensures err.Some? ==> |commands| == Attempts && err == run(Attempts - 1)
    ensures warnings == FailureWarnings(image, FirstSuccess(run, 0))
    ensures err == PushError(run) && |commands| == PushAttempts(run)
  {
    err := None;
    commands := [];
    warnings := [];
    var cmd := ["push", image];
    var retries := 2;
    while retries >= 0
      invariant -1 <= retries <= 2
      invariant 2 - retries <= FirstSuccess(run, 0)
      invariant forall c :: c in commands ==> c == cmd
      invariant |commands| == 2 - retries
      invariant warnings == FailureWarnings(image, 2 - retries)
      invariant retries < 2 ==> err == run(1 - retries) && err.Some?
    {
      commands := commands + [cmd];
      err := run(2 - retries);
      if err.None? {
        return;
      }
      warnings := warnings + [PushFailed(image, retries)];
      retries := retries - 1;
    }
  }

  /** A push that fails once and then succeeds runs twice and warns once. */
  lemma SecondAttemptSucceeds(run: nat -> Option<string>)
    requires run(0).Some? && run(1).None?
    ensures FirstSuccess(run, 0) == 1
    ensures FailureWarnings("img:v1", FirstSuccess(run, 0)) == [PushFailed("img:v1", 2)]
  {
  }
}

/** The health evaluator: every destination of one (DNS name, IP) pair is
    pinged, the failures are counted, and the count is compared with the
    configured failure threshold. */
module Health {
  import opened DnsTypes

  /** What happened when the prober tried to ping one destination: the ping
      process ran and exited with a return code, or starting it raised. */
  datatype PingRun = Exited(returnCode: int) | Raised

  /** `ping_host`: a ping succeeds exactly when the process exits with code 0;
      a fault while probing is reported as a failed ping. */
  function PingHost(run: PingRun): (ok: bool)
    ensures ok ==> run.Exited?
    ensures run.Exited? ==> (ok <==> run.returnCode == 0)
  {
    match run
    case Exited(code) => code == 0
    case Raised => false
  }

  /** The ping results of a pair's destinations, in destination order. */
  function Outcomes(runs: seq<PingRun>): (r: seq<bool>)
    ensures |r| == |runs|
    ensures forall i :: 0 <= i < |runs| ==> r[i] == PingHost(runs[i])
  {
    seq(|runs|, i requires 0 <= i < |runs| => PingHost(runs[i]))
  }

  /** The down count: one for every destination whose ping failed. */
  function DownCount(results: seq<bool>): (n: nat)
    ensures n <= |results|
  {
    if |results| == 0 then 0
    else (if results[0] then 0 else 1) + DownCount(results[1..])
  }

  /** The verdict for a down count: remove at or above the threshold, add below it. */
  function Decide(downCount: nat, failThreshold: int): Action
  {
    if downCount >= failThreshold then Remove else Add
  }

  /** The verdict for one (DNS name, IP) pair from the ping runs of all its destinations. */
  function Evaluate(runs: seq<PingRun>, failThreshold: int): Action
  {
    Decide(DownCount(Outcomes(runs)), failThreshold)
  }

  /** The down count is exactly the number of failed pings among the results. */
  lemma {:induction false} DownCountIsFailures(results: seq<bool>)
    ensures DownCount(results) == multiset(results)[false]
  {
    if |results| > 0 {
      assert results == [results[0]] + results[1..];
      assert multiset(results) == multiset([results[0]]) + multiset(results[1..]);
      DownCountIsFailures(results[1..]);
    }
  }

  /** The count is additive: the count over a concatenation is the sum of the
      counts of its two parts. */
  lemma {:induction false} DownCountAppend(a: seq<bool>, b: seq<bool>)
    ensures DownCount(a + b) == DownCount(a) + DownCount(b)
  {
    if |a| > 0 {
      assert (a + b)[1..] == a[1..] + b;
      DownCountAppend(a[1..], b);
    } else {
      assert a + b == b;
    }
  }

  /** The down count is zero exactly when every ping succeeded, and equals the
      number of destinations exactly when every ping failed. */
  lemma {:induction false} DownCountExtremes(results: seq<bool>)
    ensures DownCount(results) == 0 <==> forall i :: 0 <= i < |results| ==> results[i]
    ensures DownCount(results) == |results| <==> forall i :: 0 <= i < |results| ==> !results[i]
  {
    if |results| > 0 {
      DownCountExtremes(results[1..]);
      assert forall i :: 1 <= i < |results| ==> results[i] == results[1..][i - 1];
    }
  }

  /** The threshold is inclusive: a down count equal to the threshold removes,
      one below it adds. */
  lemma ThresholdIsInclusive(failThreshold: nat)
    ensures Decide(failThreshold, failThreshold) == Remove
    ensures failThreshold > 0 ==> Decide(failThreshold - 1, failThreshold) == Add
  {
  }

  /** The verdict is "remove" exactly when at least `failThreshold` of the
      destinations failed to answer their ping (a fault counts as a failure). */
  lemma EvaluateRemovesIff(runs: seq<PingRun>, failThreshold: int)
    ensures Evaluate(runs, failThreshold) == Remove
            <==> multiset(Outcomes(runs))[false] >= failThreshold
  {
    DownCountIsFailures(Outcomes(runs));
  }

  /** A failed ping never lowers the down count. */
  lemma {:induction false} FailureNeverLowersCount(results: seq<bool>, i: nat)
    requires i < |results|
    ensures DownCount(results[i := false]) == DownCount(results) + (if results[i] then 1 else 0)
  {
    if i > 0 {
      assert results[i := false][1..] == results[1..][i - 1 := false];
      FailureNeverLowersCount(results[1..], i - 1);
    } else {
      assert results[i := false][1..] == results[1..];
    }
  }

  /** Turning one destination's ping into a fault can only move the verdict
      from "add" towards "remove", never the other way. */
  lemma FaultOnlyPushesTowardsRemoval(runs: seq<PingRun>, i: nat, failThreshold: int)
    requires i < |runs|
    ensures Evaluate(runs, failThreshold) == Remove ==> Evaluate(runs[i := Raised], failThreshold) == Remove
  {
    assert Outcomes(runs[i := Raised]) == Outcomes(runs)[i := false];
    FailureNeverLowersCount(Outcomes(runs), i);
  }
}

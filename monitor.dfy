/** The cycle scheduler, `monitor`: one pass visits every (DNS name, IP) pair
    of the configuration in order, evaluates its health and reconciles it,
    then the loop sleeps for the configured interval, or for a short fixed
    backoff when a fault escaped the pass. Real time is not modelled: a cycle
    returns the duration it would sleep. */
module Monitor {
  import opened DnsTypes
  import Health
  import opened Reconciler
  import opened ProviderClient

  /** The sleep, in seconds, after a fault escaped a cycle. */
  const Backoff: int := 10

  /** The longest sleep, in whole seconds, that `time.sleep` accepts: its
      timeout is a signed 64-bit count of nanoseconds, so any longer interval
      (and any negative one) makes the call raise. */
  const MaxSleep: int := 9223372036

  /** Whether `time.sleep` can sleep `secs` seconds without raising. */
  predicate Sleepable(secs: int) {
    0 <= secs <= MaxSleep
  }

  /** One candidate IP of a DNS name and the destinations pinged for it. */
  datatype Target = Target(ip: string, destinations: seq<string>)

  /** One DNS name and its candidate IPs, in configuration order. */
  datatype DnsEntry = DnsEntry(name: string, targets: seq<Target>)

  /** The configuration the loop consumes: the record settings, the failure
      threshold, the cycle interval and the DNS entries in configuration order. */
  datatype Config = Config(settings: Settings, failThreshold: int, interval: int, entries: seq<DnsEntry>)

  /** One (DNS name, IP) pair of a pass, with the destinations pinged for it. */
  datatype Pair = Pair(name: string, ip: string, destinations: seq<string>)

  /** One call of the reconciler. */
  datatype Call = Call(action: Action, name: string, ip: string)

  /** What the outside world does during one cycle: `ping(k, j)` is the run of
      the ping of the j-th destination of the cycle's k-th pair; `fetchOk(k)`
      says whether listing the records succeeded in the k-th reconcile call;
      `fault == Some(k)` means that a fault escapes while the k-th pair is
      handled, before its reconcile call (k equal to the number of pairs: after
      the last one). */
  datatype Env = Env(ping: (nat, nat) -> Health.PingRun, fetchOk: nat -> bool, fault: Option<nat>)

  function EntryPairs(e: DnsEntry): (ps: seq<Pair>)
    ensures |ps| == |e.targets|
  {
    seq(|e.targets|, j requires 0 <= j < |e.targets| => Pair(e.name, e.targets[j].ip, e.targets[j].destinations))
  }

  /** The pairs of a pass, in the order of the two nested loops. */
  function Pairs(entries: seq<DnsEntry>): seq<Pair>
  {
    if |entries| == 0 then []
    else Pairs(entries[..|entries| - 1]) + EntryPairs(entries[|entries| - 1])
  }

  /** The ping runs of the k-th pair's `n` destinations. */
  function Runs(env: Env, k: nat, n: nat): seq<Health.PingRun>
  {
    seq(n, j requires 0 <= j < n => env.ping(k, j))
  }

  /** The verdict the pass reaches for its k-th pair. */
  function Verdict(cfg: Config, env: Env, k: nat, p: Pair): Action
  {
    Health.Evaluate(Runs(env, k, |p.destinations|), cfg.failThreshold)
  }

  /** The call for the k-th of the pairs `ps`. */
  function CallAt(cfg: Config, env: Env, ps: seq<Pair>, k: nat): Call
    requires k < |ps|
  {
    var p := ps[k];
    Call(Verdict(cfg, env, k, p), p.name, p.ip)
  }

  /** How many pairs the pass reconciles before it ends or a fault escapes. */
  function Stop(cfg: Config, env: Env): nat
  {
    var n := |Pairs(cfg.entries)|;
    if env.fault.Some? && env.fault.value < n then env.fault.value else n
  }

  /** The calls for the first k pairs of the pass. */
  function CallsUpTo(cfg: Config, env: Env, ps: seq<Pair>, k: nat): (calls: seq<Call>)
    requires k <= |ps|
    ensures |calls| == k
  {
    seq(k, n requires 0 <= n < k => CallAt(cfg, env, ps, n))
  }

  /** The reconcile calls one cycle makes, in order. */
  function CycleCalls(cfg: Config, env: Env): seq<Call>
  {
    CallsUpTo(cfg, env, Pairs(cfg.entries), Stop(cfg, env))
  }

  /** The sleep that ends a cycle: the interval after a complete pass, the
      backoff after an escaped fault. An interval that cannot be slept makes the
      interval sleep itself raise, which the loop also answers with the backoff. */
  function SleepAfter(cfg: Config, env: Env): int
  {
    if (env.fault.Some? && env.fault.value <= |Pairs(cfg.entries)|) || !Sleepable(cfg.interval) then Backoff
    else cfg.interval
  }

  /** The zone after a sequence of reconcile calls; the n-th call's listing
      succeeds when `fetchOk(n)` holds. */
  function ApplyCalls(s: Store, calls: seq<Call>, fetchOk: nat -> bool, settings: Settings): Store
  {
    if |calls| == 0 then s
    else
      var n := |calls| - 1;
      Reconcile(ApplyCalls(s, calls[..n], fetchOk, settings), fetchOk(n), calls[n].action, calls[n].name, calls[n].ip, settings)
  }

  /** The zone after the cycles of `envs`, one after the other. */
  function RunCycles(s: Store, cfg: Config, envs: seq<Env>): Store
  {
    if |envs| == 0 then s
    else
      var c := |envs| - 1;
      ApplyCalls(RunCycles(s, cfg, envs[..c]), CycleCalls(cfg, envs[c]), envs[c].fetchOk, cfg.settings)
  }

  predicate DistinctPairs(ps: seq<Pair>) {
    forall a, b :: 0 <= a < b < |ps| ==> ps[a].name != ps[b].name || ps[a].ip != ps[b].ip
  }

  predicate DistinctCalls(calls: seq<Call>) {
    forall a, b :: 0 <= a < b < |calls| ==> calls[a].name != calls[b].name || calls[a].ip != calls[b].ip
  }

  // ---------------------------------------------------------------------------
  // The order of a pass

  lemma PairsSnoc(entries: seq<DnsEntry>, i: nat)
    requires i < |entries|
    ensures Pairs(entries[..i + 1]) == Pairs(entries[..i]) + EntryPairs(entries[i])
  {
    assert entries[..i + 1][..i] == entries[..i];
  }

  lemma {:induction false} PairsPrefix(entries: seq<DnsEntry>, i: nat)
    requires i <= |entries|
    ensures Pairs(entries[..i]) <= Pairs(entries)
    decreases |entries|
  {
    var n := |entries|;
    if i == n {
      assert entries[..i] == entries;
    } else {
      var init := entries[..n - 1];
      PairsPrefix(init, i);
      assert init[..i] == entries[..i];
    }
  }

  /** The pass visits the configuration in order: the j-th IP of the i-th DNS
      entry is pair number |pairs of the first i entries| + j. */
  lemma PairsEnumerate(entries: seq<DnsEntry>, i: nat, j: nat)
    requires i < |entries| && j < |entries[i].targets|
    ensures var k := |Pairs(entries[..i])| + j;
            && k < |Pairs(entries)|
            && Pairs(entries)[k] == Pair(entries[i].name, entries[i].targets[j].ip, entries[i].targets[j].destinations)
  {
    PairsSnoc(entries, i);
    PairsPrefix(entries, i + 1);
    var k := |Pairs(entries[..i])| + j;
    assert Pairs(entries)[k] == Pairs(entries[..i + 1])[k];
  }

  /** The pairs of the i-th entry follow those of the entries before it. */
  lemma EntryFollowsPrefix(entries: seq<DnsEntry>, i: nat)
    requires i < |entries|
    ensures |Pairs(entries[..i + 1])| == |Pairs(entries[..i])| + |entries[i].targets| <= |Pairs(entries)|
    ensures Pairs(entries)[|Pairs(entries[..i])|..|Pairs(entries[..i + 1])|] == EntryPairs(entries[i])
  {
    PairsSnoc(entries, i);
    PairsPrefix(entries, i + 1);
  }

  /** Without an escaped fault, a cycle calls the reconciler exactly once for
      every pair, in pass order, with that pair's verdict. */
  lemma CycleVisitsEveryPair(cfg: Config, env: Env)
    requires env.fault.None? || env.fault.value >= |Pairs(cfg.entries)|
    ensures var calls := CycleCalls(cfg, env);
            var ps := Pairs(cfg.entries);
            && |calls| == |ps|
            && forall k :: 0 <= k < |ps| ==>
                 calls[k] == Call(Verdict(cfg, env, k, ps[k]), ps[k].name, ps[k].ip)
  {
  }

  /** A fault escaping at pair k ends the pass: exactly the k pairs before it
      were reconciled, and the cycle sleeps for the backoff. */
  lemma FaultEndsCycleWithBackoff(cfg: Config, env: Env)
    requires env.fault.Some? && env.fault.value <= |Pairs(cfg.entries)|
    ensures |CycleCalls(cfg, env)| == env.fault.value
    ensures SleepAfter(cfg, env) == Backoff
  {
  }

  /** A cycle ends with the configured interval when no fault escaped it and that
      interval can be slept; otherwise it ends with the backoff. */
  lemma SleepIsIntervalOrBackoff(cfg: Config, env: Env)
    ensures SleepAfter(cfg, env) == Backoff || SleepAfter(cfg, env) == cfg.interval
    ensures (env.fault.None? || env.fault.value > |Pairs(cfg.entries)|) && Sleepable(cfg.interval)
            ==> SleepAfter(cfg, env) == cfg.interval
    ensures !Sleepable(cfg.interval) ==> SleepAfter(cfg, env) == Backoff
  {
  }

  /** Failure isolation: whether the record listings fail has no influence on
      which pairs are reconciled, nor on their verdicts. */
  lemma FetchFailuresDoNotChangeCalls(cfg: Config, env: Env, fetchOk: nat -> bool)
    ensures CycleCalls(cfg, env.(fetchOk := fetchOk)) == CycleCalls(cfg, env)
  {
  }

  // ---------------------------------------------------------------------------
  // What a cycle does to the zone

  /** Calls for other pairs leave the number of (name, ip) records alone. */
  lemma {:induction false} ApplyCallsUntouched(s: Store, calls: seq<Call>, fetchOk: nat -> bool,
                                               settings: Settings, name: string, ip: string)
    requires forall a :: 0 <= a < |calls| ==> calls[a].name != name || calls[a].ip != ip
    ensures MatchCount(ApplyCalls(s, calls, fetchOk, settings).records, name, ip) == MatchCount(s.records, name, ip)
  {
    if |calls| > 0 {
      var n := |calls| - 1;
      ApplyCallsUntouched(s, calls[..n], fetchOk, settings, name, ip);
      ReconcileCount(ApplyCalls(s, calls[..n], fetchOk, settings), fetchOk(n),
                     calls[n].action, calls[n].name, calls[n].ip, settings, name, ip);
    }
  }

  /** With distinct pairs, every call's own effect survives the rest of the
      sequence: the pair of call k ends with the record count `CountEffect`
      gives for its action, whatever the other calls did. */
  lemma {:induction false} ApplyCallsEffect(s: Store, calls: seq<Call>, fetchOk: nat -> bool,
                                            settings: Settings, k: nat)
    requires DistinctCalls(calls) && k < |calls|
    ensures MatchCount(ApplyCalls(s, calls, fetchOk, settings).records, calls[k].name, calls[k].ip)
            == CountEffect(MatchCount(s.records, calls[k].name, calls[k].ip), fetchOk(k), calls[k].action)
  {
    var n := |calls| - 1;
    var init := calls[..n];
    var mid := ApplyCalls(s, init, fetchOk, settings);
    ReconcileCount(mid, fetchOk(n), calls[n].action, calls[n].name, calls[n].ip, settings,
                   calls[k].name, calls[k].ip);
    if k == n {
      ApplyCallsUntouched(s, init, fetchOk, settings, calls[k].name, calls[k].ip);
    } else {
      ApplyCallsEffect(s, init, fetchOk, settings, k);
    }
  }

  /** From ANY zone (manual edits, leftovers of earlier cycles included), after
      one cycle each reconciled pair's record count has moved as `CountEffect`
      gives for its verdict and listing outcome (a "remove" whose listing failed
      or found nothing keeps the count), and the pairs after an escaped fault
      are untouched. */
  lemma CycleEffect(s: Store, cfg: Config, env: Env, k: nat)
    requires DistinctPairs(Pairs(cfg.entries)) && k < |Pairs(cfg.entries)|
    ensures var p := Pairs(cfg.entries)[k];
            var before := MatchCount(s.records, p.name, p.ip);
            var after := MatchCount(ApplyCalls(s, CycleCalls(cfg, env), env.fetchOk, cfg.settings).records, p.name, p.ip);
            after == if k < Stop(cfg, env) then CountEffect(before, env.fetchOk(k), Verdict(cfg, env, k, p)) else before
  {
    var calls := CycleCalls(cfg, env);
    var p := Pairs(cfg.entries)[k];
    if k < Stop(cfg, env) {
      ApplyCallsEffect(s, calls, env.fetchOk, cfg.settings, k);
    } else {
      ApplyCallsUntouched(s, calls, env.fetchOk, cfg.settings, p.name, p.ip);
    }
  }

  /** A healthy pair reconciled with a good listing has its record afterwards. */
  lemma HealthyPairPresentAfterCycle(s: Store, cfg: Config, env: Env, k: nat)
    requires DistinctPairs(Pairs(cfg.entries)) && k < Stop(cfg, env) && env.fetchOk(k)
    requires Verdict(cfg, env, k, Pairs(cfg.entries)[k]) == Add
    ensures var p := Pairs(cfg.entries)[k];
            MatchCount(ApplyCalls(s, CycleCalls(cfg, env), env.fetchOk, cfg.settings).records, p.name, p.ip) > 0
  {
    CycleEffect(s, cfg, env, k);
  }

  /** One DNS name with one IP probed through one destination, threshold 1:
      when that ping fails and the zone holds the matching record, the cycle
      makes a single "remove" call, deletes the record and creates nothing. */
  lemma SingleFailingIpIsRemoved(env: Env)
    requires env.ping(0, 0) == Health.Exited(1) && env.fetchOk(0) && env.fault.None?
    ensures var cfg := Config(Settings(1, false), 1, 60,
                              [DnsEntry("svc.example.com", [Target("10.0.0.1", ["10.0.0.1:443"])])]);
            var s := Store([Record(7, "svc.example.com", AType, "10.0.0.1", 1, false)], 8);
            && CycleCalls(cfg, env) == [Call(Remove, "svc.example.com", "10.0.0.1")]
            && ApplyCalls(s, CycleCalls(cfg, env), env.fetchOk, cfg.settings) == Store([], 8)
  {
    var entries := [DnsEntry("svc.example.com", [Target("10.0.0.1", ["10.0.0.1:443"])])];
    var cfg := Config(Settings(1, false), 1, 60, entries);
    assert entries[..0] == [];
    assert Pairs(entries) == [Pair("svc.example.com", "10.0.0.1", ["10.0.0.1:443"])];
    assert Runs(env, 0, 1) == [Health.Exited(1)];
    assert Health.Outcomes([Health.Exited(1)]) == [false];
    assert Health.DownCount([false]) == 1;
    var calls := CycleCalls(cfg, env);
    assert calls == [Call(Remove, "svc.example.com", "10.0.0.1")];
    assert calls[..0] == [];
  }

  lemma ApplyCallsSnoc(s: Store, calls: seq<Call>, call: Call, fetchOk: nat -> bool, settings: Settings)
    ensures ApplyCalls(s, calls + [call], fetchOk, settings)
            == Reconcile(ApplyCalls(s, calls, fetchOk, settings), fetchOk(|calls|), call.action, call.name, call.ip, settings)
  {
    assert (calls + [call])[..|calls|] == calls;
  }

  // ---------------------------------------------------------------------------
  // The loop

  /** The zone has gone through the calls `calls`, starting from `start`. */
  ghost predicate Tracks(zone: Zone, start: Store, calls: seq<Call>, fetchOk: nat -> bool, settings: Settings)
    reads zone
  {
    zone.Valid() && zone.Snapshot() == ApplyCalls(start, calls, fetchOk, settings)
  }

  /** `calls` are the first calls of the pass, made before any escaped fault. */
  ghost predicate Progress(cfg: Config, env: Env, ps: seq<Pair>, calls: seq<Call>)
  {
    && |calls| <= |ps|
    && (forall n {:trigger CallAt(cfg, env, ps, n)} :: 0 <= n < |calls| ==> calls[n] == CallAt(cfg, env, ps, n))
    && (env.fault.Some? ==> env.fault.value >= |calls|)
  }

  /** One more call of the pass keeps it a prefix of the pass. */
  lemma ProgressSnoc(cfg: Config, env: Env, ps: seq<Pair>, calls: seq<Call>, call: Call)
    requires Progress(cfg, env, ps, calls) && |calls| < |ps|
    requires env.fault.Some? ==> env.fault.value > |calls|
    requires call == CallAt(cfg, env, ps, |calls|)
    ensures Progress(cfg, env, ps, calls + [call])
  {
    var next := calls + [call];
    forall n | 0 <= n < |next|
      ensures next[n] == CallAt(cfg, env, ps, n)
    {
      if n < |calls| {
        assert next[n] == calls[n];
      }
    }
  }

  /** The body of the inner loop for the k-th pair `ps[k]` of the pass, whose
      DNS name is `name` and whose IP and destinations are `target`'s: ping
      every destination, decide, and reconcile; `done` are the calls made before. */
  method CheckAndReconcile(zone: Zone, cfg: Config, env: Env, ghost ps: seq<Pair>, k: nat, name: string,
                           target: Target, ghost start: Store, ghost done: seq<Call>)
    returns (call: Call)
    requires k < |ps| && ps[k] == Pair(name, target.ip, target.destinations)
    requires |done| == k && Tracks(zone, start, done, env.fetchOk, cfg.settings)
    modifies zone
    ensures call == CallAt(cfg, env, ps, k)
    ensures Tracks(zone, start, done + [call], env.fetchOk, cfg.settings)
  {
    var runs := seq(|target.destinations|, d requires 0 <= d < |target.destinations| => env.ping(k, d));
    assert runs == Runs(env, k, |target.destinations|);
    var action := Health.Evaluate(runs, cfg.failThreshold);
    UpdateDnsRecord(zone, cfg.settings, action, name, target.ip, env.fetchOk(k));
    call := Call(action, name, target.ip);
    ApplyCallsSnoc(start, done, call, env.fetchOk, cfg.settings);
  }

  /** The inner loop of a pass, over the IPs of one DNS entry; `calls0` are
      the calls made so far in the pass, and the entry's IPs are the pairs
      that follow them. It stops early, `faulted`, when a fault escapes at one
      of the entry's pairs. */
  method ReconcileEntry(zone: Zone, cfg: Config, env: Env, entry: DnsEntry, calls0: seq<Call>,
                        ghost ps: seq<Pair>, ghost start: Store)
    returns (calls: seq<Call>, faulted: bool)
    requires |calls0| + |entry.targets| <= |ps|
    requires ps[|calls0|..|calls0| + |entry.targets|] == EntryPairs(entry)
    requires Progress(cfg, env, ps, calls0) && Tracks(zone, start, calls0, env.fetchOk, cfg.settings)
    modifies zone
    ensures Tracks(zone, start, calls, env.fetchOk, cfg.settings)
    ensures faulted ==> Progress(cfg, env, ps, calls) && env.fault == Some(|calls|)
    ensures !faulted ==> |calls| == |calls0| + |entry.targets| && Progress(cfg, env, ps, calls)
  {
    calls := calls0;
    var j := 0;
    while j < |entry.targets|
      invariant 0 <= j <= |entry.targets|
      invariant |calls| == |calls0| + j
      invariant Progress(cfg, env, ps, calls) && Tracks(zone, start, calls, env.fetchOk, cfg.settings)
    {
      var k := |calls|;
      if env.fault.Some? && env.fault.value == k {
        return calls, true;
      }
      assert ps[k] == EntryPairs(entry)[j];
      var call := CheckAndReconcile(zone, cfg, env, ps, k, entry.name, entry.targets[j], start, calls);
      ProgressSnoc(cfg, env, ps, calls, call);
      calls := calls + [call];
      j := j + 1;
    }
    faulted := false;
  }

  /** A pass that has made the calls `calls` ends there when it has visited
      every pair or hit the escaped fault. */
  lemma PassEnds(cfg: Config, env: Env, calls: seq<Call>)
    requires Progress(cfg, env, Pairs(cfg.entries), calls)
    requires |calls| == |Pairs(cfg.entries)| || env.fault == Some(|calls|)
    ensures calls == CycleCalls(cfg, env)
  {
  }

  /** The state of a pass after its first i DNS entries: the calls for their
      pairs have been made, and the zone has gone through them. */
  ghost predicate PassInv(zone: Zone, cfg: Config, env: Env, ps: seq<Pair>, start: Store, calls: seq<Call>, i: nat)
    reads zone
  {
    && i <= |cfg.entries|
    && |calls| == |Pairs(cfg.entries[..i])|
    && Progress(cfg, env, ps, calls)
    && Tracks(zone, start, calls, env.fetchOk, cfg.settings)
  }

  /** One iteration of the outer loop: the inner loop over the IPs of the
      i-th DNS entry, whose pairs follow those of the entries before it. */
  method PassEntry(zone: Zone, cfg: Config, env: Env, ghost ps: seq<Pair>, ghost start: Store, i: nat, calls0: seq<Call>)
    returns (calls: seq<Call>, faulted: bool)
    requires ps == Pairs(cfg.entries) && i < |cfg.entries| && |calls0| == |Pairs(cfg.entries[..i])|
    requires Progress(cfg, env, ps, calls0) && Tracks(zone, start, calls0, env.fetchOk, cfg.settings)
    modifies zone
    ensures Tracks(zone, start, calls, env.fetchOk, cfg.settings)
    ensures faulted ==> Progress(cfg, env, ps, calls) && env.fault == Some(|calls|)
    ensures !faulted ==> |calls| == |Pairs(cfg.entries[..i + 1])| && Progress(cfg, env, ps, calls)
  {
    EntryFollowsPrefix(cfg.entries, i);
    calls, faulted := ReconcileEntry(zone, cfg, env, cfg.entries[i], calls0, ps, start);
  }

  /** The pass of one cycle: the nested loops over the DNS entries and their
      IPs, each pair evaluated and reconciled. It ends early, `faulted`, when a
      fault escapes at one of the pairs, or is `faulted` at its end when the
      fault escapes after the last pair. */
  method RunPass(zone: Zone, cfg: Config, env: Env, ghost start: Store) returns (calls: seq<Call>, faulted: bool)
    requires zone.Valid() && zone.Snapshot() == start
    modifies zone
    ensures calls == CycleCalls(cfg, env)
    ensures faulted <==> env.fault.Some? && env.fault.value <= |Pairs(cfg.entries)|
    ensures Tracks(zone, start, calls, env.fetchOk, cfg.settings)
  {
    ghost var ps := Pairs(cfg.entries);
    calls := [];
    var i := 0;
    while i < |cfg.entries|
      invariant PassInv(zone, cfg, env, ps, start, calls, i)
    {
      calls, faulted := PassEntry(zone, cfg, env, ps, start, i, calls);
      if faulted {
        PassEnds(cfg, env, calls);
        return;
      }
      i := i + 1;
    }
    assert cfg.entries[..|cfg.entries|] == cfg.entries;
    PassEnds(cfg, env, calls);
    faulted := env.fault.Some? && env.fault.value == |calls|;
  }

  /** One iteration of the monitoring loop: the pass, then the sleep, which is
      the backoff when a fault escaped the pass or the interval cannot be slept. */
  method RunCycle(zone: Zone, cfg: Config, env: Env) returns (sleep: int, calls: seq<Call>)
    requires zone.Valid()
    modifies zone
    ensures calls == CycleCalls(cfg, env)
    ensures sleep == SleepAfter(cfg, env)
    ensures zone.Valid()
    ensures zone.Snapshot() == ApplyCalls(old(zone.Snapshot()), calls, env.fetchOk, cfg.settings)
  {
    var faulted;
    calls, faulted := RunPass(zone, cfg, env, zone.Snapshot());
    if faulted || !Sleepable(cfg.interval) {
      sleep := Backoff;
    } else {
      sleep := cfg.interval;
    }
  }

  /** The cycles up to and including cycle c: those before it, then cycle c. */
  lemma RunCyclesSnoc(s: Store, cfg: Config, envs: seq<Env>, c: nat)
    requires c < |envs|
    ensures RunCycles(s, cfg, envs[..c + 1])
            == ApplyCalls(RunCycles(s, cfg, envs[..c]), CycleCalls(cfg, envs[c]), envs[c].fetchOk, cfg.settings)
  {
    assert envs[..c + 1][..c] == envs[..c];
  }

  /** The state of the monitoring loop after its first c cycles. */
  ghost predicate MonitorInv(zone: Zone, cfg: Config, envs: seq<Env>, start: Store, sleeps: seq<int>, c: nat)
    reads zone
  {
    && c <= |envs|
    && |sleeps| == c
    && (forall d :: 0 <= d < c ==> sleeps[d] == SleepAfter(cfg, envs[d]))
    && zone.Valid() && zone.Snapshot() == RunCycles(start, cfg, envs[..c])
  }

  /** The monitoring loop run for |envs| cycles: every cycle runs, each ends
      with its own sleep, and the zone goes through the cycles one by one. */
  method Monitor(zone: Zone, cfg: Config, envs: seq<Env>) returns (sleeps: seq<int>)
    requires zone.Valid()
    modifies zone
    ensures zone.Valid()
    ensures |sleeps| == |envs|
    ensures forall c :: 0 <= c < |envs| ==> sleeps[c] == SleepAfter(cfg, envs[c])
    ensures zone.Snapshot() == RunCycles(old(zone.Snapshot()), cfg, envs)
  {
    ghost var start := zone.Snapshot();
    sleeps := [];
    var c := 0;
    while c < |envs|
      invariant MonitorInv(zone, cfg, envs, start, sleeps, c)
    {
      var sleep, calls := RunCycle(zone, cfg, envs[c]);
      RunCyclesSnoc(start, cfg, envs, c);
      sleeps := sleeps + [sleep];
      c := c + 1;
    }
    assert envs[..|envs|] == envs;
  }
}

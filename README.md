# Cloudflare DNS monitor — a verified model of its reconciliation loop

The Cloudflare DNS monitor keeps a zone's A records in step with whether the
backend IPs behind them can be reached. Its configuration maps each DNS name to
candidate IPs, and each IP to a list of probe destinations. The monitor runs in
an endless loop. Each cycle visits every (DNS name, IP) pair in configuration
order. For each pair it pings every destination and counts the failures. It
then asks the reconciler to **remove** the pair's A record when the count
reaches the failure threshold, and to **add** it otherwise. The reconciler
lists the zone's records and finds the first A record with that name and IP as
its content. It deletes that record on "remove" and does nothing else when a
record matches. With no match, it creates the record on "add". After a full
pass the loop sleeps for the configured interval. If a fault escapes the pass,
it sleeps for 10 seconds instead. It also sleeps 10 seconds when the interval
sleep itself raises: `time.sleep` rejects a negative interval, and one longer
than its signed 64-bit nanosecond timeout can hold (`MaxSleep`, 9223372036
seconds).

The project is split into these modules:

- `DnsTypes` (`types.dfy`): records, the zone as a value (`Store`), the record
  settings, and the two actions.
- `Health` (`health.dfy`): `ping_host`, the down count and the threshold
  decision.
- `ProviderClient` (`provider.dfy`): the zone as a `class Zone`. The delete
  and create calls update its record list and id counter in place; the list
  call only reads them.
- `Reconciler` (`reconciler.dfy`): `update_dns_record`. It is specified by the
  function `Reconcile` on zone values, which has the reconciler's promises
  proved about it. The imperative `UpdateDnsRecord` and `FindRecord` are proved
  to do what `Reconcile` says.
- `Monitor` (`monitor.dfy`): the cycle scheduler. Its nested loops are
  `RunPass` → `PassEntry` → `ReconcileEntry` → `CheckAndReconcile`. One cycle
  is `RunCycle`, and a bounded run of the endless loop is `Monitor`. They are
  specified by the functions `CycleCalls` (the reconcile calls of one cycle, in
  order), `SleepAfter` (its sleep), `ApplyCalls` and `RunCycles` (the zone
  afterwards).

The outside world enters as parameters:

- The record listing's success enters as `fetchOk`.
- Each ping's process outcome enters as `Health.PingRun`: an exit code, or a
  raised fault.
- The point where a fault escapes a cycle, if any, enters as `Env.fault`.

`get_dns_records` turns a failed listing into the empty list
(`cloudflare-dns-monitor.py:40-42`). The model follows the code here. An "add"
after a failed listing therefore creates the record even when it already
exists (`Reconciler.AddAfterFailedFetchDuplicates`). This means "add" is
idempotent only when the second listing succeeds (`Reconciler.AddIsIdempotent`).
A design that reported fetch failures to the reconciler would skip that call
instead.

Likewise, only `ping_host`, `get_dns_records` and `update_dns_record` catch
their own faults. Any other fault raised while a pair is handled escapes the
whole cycle (`cloudflare-dns-monitor.py:86-88`). That ends the pass before the remaining
pairs rather than skipping only the one pair, and the model does the same.

## Model

| member | source | states |
|---|---|---|
| Health.PingHost | cloudflare-dns-monitor.py:19-29 | a ping succeeds only when the process ran, and then exactly when its return code is 0; a raised fault is a failure |
| Health.Outcomes | cloudflare-dns-monitor.py:75 | one ping result per destination, in destination order, the i-th being the outcome of the i-th destination's ping |
| Health.DownCount | cloudflare-dns-monitor.py:75 | the down count never exceeds the number of destinations |
| Health.Decide | cloudflare-dns-monitor.py:77-82 | defines the threshold decision: "remove" when the down count is at least the failure threshold, "add" otherwise (no `ensures`; ThresholdIsInclusive and EvaluateRemovesIff state its properties) |
| Health.Evaluate | cloudflare-dns-monitor.py:75-82 | defines a pair's verdict: the decision on the down count of its destinations' ping outcomes (no `ensures`; EvaluateRemovesIff and FaultOnlyPushesTowardsRemoval state its properties) |
| Health.DownCountIsFailures | cloudflare-dns-monitor.py:75 | the down count equals the number of failed pings among the results |
| Health.DownCountAppend | cloudflare-dns-monitor.py:75 | the count is additive: the count over two result lists joined is the sum of their counts (that no destination is skipped follows from `Outcomes` giving one result per destination together with DownCountIsFailures) |
| Health.DownCountExtremes | cloudflare-dns-monitor.py:75 | the count is 0 exactly when every ping succeeded, and equals the number of destinations exactly when every ping failed |
| Health.ThresholdIsInclusive | cloudflare-dns-monitor.py:77-82 | a down count equal to the threshold removes, one below it adds |
| Health.EvaluateRemovesIff | cloudflare-dns-monitor.py:75-82 | the verdict is "remove" exactly when the number of failed pings is at least the threshold, otherwise "add" |
| Health.FailureNeverLowersCount | cloudflare-dns-monitor.py:75 | turning one result into a failure raises the count by one if it was a success and leaves it otherwise |
| Health.FaultOnlyPushesTowardsRemoval | cloudflare-dns-monitor.py:27-29 | a ping that raises instead can only move the verdict towards "remove" |
| ProviderClient.Without | cloudflare-dns-monitor.py:52-55 | deleting an id leaves no record with that id and never grows the list |
| ProviderClient.WithoutDistinctIsRemoveAt | cloudflare-dns-monitor.py:52-55 | with distinct ids, deleting the id of the record at position i removes exactly that record and keeps the others in order |
| ProviderClient.WithoutKeepsOnlyOld | cloudflare-dns-monitor.py:55 | every record left after a delete was in the zone before |
| ProviderClient.WithoutKeepsValid | cloudflare-dns-monitor.py:55 | a delete keeps the ids distinct and all issued |
| ProviderClient.WithoutAbsent | cloudflare-dns-monitor.py:55 | deleting an id no record carries changes nothing |
| ProviderClient.Zone.ListRecords | cloudflare-dns-monitor.py:31-42 | the zone's records in listing order when the listing succeeds, the empty list when it fails |
| ProviderClient.Zone.DeleteRecord | cloudflare-dns-monitor.py:54-55 | the zone afterwards is the old records without that id; the zone stays well formed |
| ProviderClient.Zone.CreateRecord | cloudflare-dns-monitor.py:60-62 | exactly one record with the given type, name, content, ttl and proxied flag is appended under a fresh id; the zone stays well formed |
| Reconciler.NewRecord | cloudflare-dns-monitor.py:60-62 | defines the record the add path POSTs: type A, the DNS name, the IP as content, the configured ttl and proxied flag, and the id the provider issues (no `ensures`; AddWhenAbsentAppends states it is what gets appended) |
| Reconciler.Reconcile | cloudflare-dns-monitor.py:44-65 | defines the zone after one call: the search runs over the listing, or over the empty list when the listing fails; on "remove" the listing's first match is deleted; on "add" with no match in the listing one A record is appended; otherwise the zone is unchanged (no `ensures`; the Reconciler lemmas below and UpdateDnsRecord state its properties) |
| Reconciler.FirstMatch | cloudflare-dns-monitor.py:50-51 | the position found is within the listing |
| Reconciler.FirstMatchIsFirst | cloudflare-dns-monitor.py:50-57 | the search finds a record with the name, type "A" and the IP as content, with no such record before it; it finds nothing exactly when no record matches |
| Reconciler.MatchCountPositiveIff | cloudflare-dns-monitor.py:50-51 | the search finds a record exactly when at least one record matches |
| Reconciler.RemoveAtCount | cloudflare-dns-monitor.py:52-55 | deleting one record lowers its own (name, IP) count by one and leaves every other count alone |
| Reconciler.ReconcileCount | cloudflare-dns-monitor.py:44-65 | after one call, the count of the call's own (name, IP) is as `CountEffect` gives it for the action and listing outcome, and every other pair's count is unchanged |
| Reconciler.AddWhenPresentIsNoop | cloudflare-dns-monitor.py:50-57 | "add" with a matching record and a good listing creates and deletes nothing |
| Reconciler.AddWhenAbsentAppends | cloudflare-dns-monitor.py:59-63 | "add" with no match, or a failed listing, appends exactly one A record with the name, IP, configured ttl and proxied flag, and keeps every other record in place |
| Reconciler.RemoveDeletesFirstMatch | cloudflare-dns-monitor.py:50-57 | "remove" deletes the first matching record in listing order and keeps every record before and after it, in order |
| Reconciler.RemoveKeepsDuplicates | cloudflare-dns-monitor.py:50-57 | "remove" deletes one matching record only: later duplicates remain |
| Reconciler.RemoveWhenAbsentIsNoop | cloudflare-dns-monitor.py:50-63 | "remove" with no match, or a failed listing, changes nothing |
| Reconciler.RemoveSparesOthers | cloudflare-dns-monitor.py:51-55 | "remove" keeps every record that does not match (name, "A", IP), with its multiplicity |
| Reconciler.AddIsIdempotent | cloudflare-dns-monitor.py:44-63 | a second "add" right after a first one changes nothing when its listing succeeds |
| Reconciler.AddAfterFailedFetchDuplicates | cloudflare-dns-monitor.py:40-63 | with a failed listing, "add" creates a second matching record even though one exists |
| Reconciler.RemovalTargetsOnlyItsIp | cloudflare-dns-monitor.py:51-55 | of two A records for one name, removing one IP deletes only the record carrying it |
| Reconciler.ReconcileKeepsValid | cloudflare-dns-monitor.py:44-65 | a reconcile call keeps the zone's ids distinct and all issued |
| Reconciler.FindRecord | cloudflare-dns-monitor.py:50-57 | the scan in listing order returns the first matching position, or nothing |
| Reconciler.UpdateDnsRecord | cloudflare-dns-monitor.py:44-65 | the zone afterwards is `Reconcile` of the zone before, so every promise above holds of the method; the zone stays well formed |
| Monitor.Pairs | cloudflare-dns-monitor.py:72-73 | defines the pass order: the (name, IP, destinations) pairs of the entries, entry by entry and within an entry IP by IP (no `ensures`; PairsEnumerate states the position of each pair) |
| Monitor.CycleCalls | cloudflare-dns-monitor.py:72-82 | defines the reconcile calls of one cycle: one call per pair in pass order, carrying that pair's verdict, up to the pair where a fault escapes (no `ensures`; CycleVisitsEveryPair, FaultEndsCycleWithBackoff and RunPass state its properties) |
| Monitor.SleepAfter | cloudflare-dns-monitor.py:84-88 | defines the sleep that ends a cycle: the 10-second backoff when a fault escaped the pass or the interval is outside what `time.sleep` accepts, the interval otherwise (no `ensures`; SleepIsIntervalOrBackoff, FaultEndsCycleWithBackoff and RunCycle state its properties) |
| Monitor.PairsEnumerate | cloudflare-dns-monitor.py:72-73 | the pass order is the nested loops' order: the j-th IP of the i-th entry is pair number (pairs of the first i entries) + j |
| Monitor.CycleVisitsEveryPair | cloudflare-dns-monitor.py:72-82 | without an escaped fault, a cycle calls the reconciler exactly once per pair, in pass order, with that pair's verdict |
| Monitor.FaultEndsCycleWithBackoff | cloudflare-dns-monitor.py:86-88 | a fault escaping at pair k leaves exactly the k pairs before it reconciled, and the cycle sleeps 10 seconds |
| Monitor.SleepIsIntervalOrBackoff | cloudflare-dns-monitor.py:84-88 | a cycle sleeps the interval or the backoff; the interval when no fault escaped and the interval is between 0 and `MaxSleep`; the backoff whenever the interval is outside that range, because the interval sleep raises |
| Monitor.FetchFailuresDoNotChangeCalls | cloudflare-dns-monitor.py:64-82 | listing failures change neither which pairs are reconciled nor their verdicts |
| Monitor.ApplyCallsUntouched | cloudflare-dns-monitor.py:72-82 | calls for other pairs leave a pair's record count alone |
| Monitor.ApplyCallsEffect | cloudflare-dns-monitor.py:72-82 | with distinct pairs, the pair of the k-th call ends with the count its own call gives, whatever the other calls did |
| Monitor.CycleEffect | cloudflare-dns-monitor.py:72-82 | from any zone, after one cycle each reconciled pair's record count moves as `CountEffect` gives for its verdict and listing: one fewer on "remove" with a good listing and at least one match (later duplicates remain), unchanged on "remove" otherwise, at least one on "add" with a good listing, one more on "add" with a failed listing; pairs after an escaped fault are untouched |
| Monitor.HealthyPairPresentAfterCycle | cloudflare-dns-monitor.py:72-82 | a pair found healthy and reconciled with a good listing has its A record after the cycle |
| Monitor.SingleFailingIpIsRemoved | cloudflare-dns-monitor.py:67-88 | one name, one IP, one failing destination and threshold 1: the cycle makes one "remove" call, deletes the matching record and creates nothing |
| Monitor.CheckAndReconcile | cloudflare-dns-monitor.py:74-82 | pings every destination of the pair, decides, and makes the pair's call; the zone has gone through it |
| Monitor.ReconcileEntry | cloudflare-dns-monitor.py:73-82 | the inner loop makes the calls for the entry's IPs in order, or stops where a fault escapes; the zone has gone through them |
| Monitor.PassEntry | cloudflare-dns-monitor.py:72-82 | one outer iteration makes the calls for the i-th entry's pairs, which follow those of the entries before it |
| Monitor.RunPass | cloudflare-dns-monitor.py:70-83 | the pass makes exactly `CycleCalls`; it ends faulted exactly when a fault escapes; the zone has gone through the calls |
| Monitor.RunCycle | cloudflare-dns-monitor.py:70-88 | one cycle makes exactly `CycleCalls`, sleeps `SleepAfter` (the backoff after an escaped fault or an interval `time.sleep` rejects, else the interval), and leaves the zone as `ApplyCalls` gives it |
| Monitor.Monitor | cloudflare-dns-monitor.py:67-88 | over any number of cycles, each cycle sleeps its own `SleepAfter`, and the zone goes through the cycles one after another (`RunCycles`) |

## Left out

- HTTP transport, the API token, the zone id and the response JSON are not modelled; the zone is a value and the three provider calls change it directly.
- Zone.DeleteRecord and Zone.CreateRecord always take effect: the source ignores the status of the DELETE and POST responses, so a failed delete or create becomes a no-op. The model does not cover that case, nor a fault raised by these calls (caught at lines 64-65).
- Records in the listing that lack a field (a `KeyError` caught at lines 64-65, which abandons the scan) are not modelled: every listed record carries all its fields.
- ProviderClient.Zone.CreateRecord: the listing shows records in creation order, so a created record is listed last; nothing in the source fixes the provider's listing order, and this decides only which duplicate a later "remove" deletes (AddWhenAbsentAppends and RemoveDeletesFirstMatch rely on it).
- Provider record ids are opaque strings; here they are natural numbers handed out by a counter, and only their distinctness matters.
- The ping subprocess, its `-n` count option and its output are not modelled: a ping is its process outcome (an exit code, or a raised fault), given as input.
- Logging (every `logging` call) and configuration loading (lines 1-17) are not modelled; the configuration is an in-memory value.
- The configuration's nested dictionaries become sequences in insertion order; CycleEffect and HealthyPairPresentAfterCycle state the uniqueness of dictionary keys as DistinctPairs.
- Real time is not modelled: a cycle returns the number of seconds it would sleep, and the interval is a whole number.
- Monitor: the endless `while True` loop is modelled as any finite number of cycles.
- Where exactly an escaping fault is raised inside a pair's work is abstracted to "before that pair's reconcile call" (or after the last pair); a fault cannot arise inside `ping_host` or `update_dns_record`, which catch their own.

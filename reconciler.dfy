/** The record-set reconciler, `update_dns_record`: fetch the zone's records,
    look for the first A record for (name, IP), and delete it on "remove" or
    create it on "add" when it is missing. */
module Reconciler {
  import opened DnsTypes
  import opened ProviderClient

  const AType: string := "A"

  /** The search condition: same name, type A, and the IP as content. */
  predicate Matches(r: Record, name: string, ip: string) {
    r.name == name && r.rtype == AType && r.content == ip
  }

  /** The position of the first record, in listing order, that matches (name, ip);
      `FirstMatchIsFirst` shows that it is that position. */
  function FirstMatch(rs: seq<Record>, name: string, ip: string): (o: Option<nat>)
    ensures o.Some? ==> o.value < |rs|
  {
    if |rs| == 0 then None
    else if Matches(rs[0], name, ip) then Some(0)
    else match FirstMatch(rs[1..], name, ip)
      case None => None
      case Some(i) => Some(i + 1)
  }

  /** The search finds a matching record with no match before it, and finds
      nothing exactly when no record matches. */
  lemma {:induction false} FirstMatchIsFirst(rs: seq<Record>, name: string, ip: string)
    ensures var o := FirstMatch(rs, name, ip);
            && (o.Some? ==> Matches(rs[o.value], name, ip))
            && (o.Some? ==> forall j :: 0 <= j < o.value ==> !Matches(rs[j], name, ip))
            && (o.None? <==> forall j :: 0 <= j < |rs| ==> !Matches(rs[j], name, ip))
  {
    if |rs| > 0 {
      FirstMatchIsFirst(rs[1..], name, ip);
      assert forall j :: 1 <= j < |rs| ==> rs[j] == rs[1..][j - 1];
    }
  }

  /** How many records match (name, ip). */
  function MatchCount(rs: seq<Record>, name: string, ip: string): nat
  {
    if |rs| == 0 then 0
    else (if Matches(rs[0], name, ip) then 1 else 0) + MatchCount(rs[1..], name, ip)
  }

  function RemoveAt(rs: seq<Record>, i: nat): seq<Record>
    requires i < |rs|
  {
    rs[..i] + rs[i + 1..]
  }

  /** The record the monitor creates for (name, ip): type A, the configured ttl
      and proxied flag, and the id the provider hands out. */
  function NewRecord(id: RecordId, name: string, ip: string, settings: Settings): Record
  {
    Record(id, name, AType, ip, settings.ttl, settings.proxied)
  }

  /** What one call of the reconciler does to the zone. The records are read
      afresh; when reading them fails (`fetchOk` false) the search runs over
      the empty list. */
  function Reconcile(s: Store, fetchOk: bool, action: Action, name: string, ip: string, settings: Settings): Store
  {
    var view := if fetchOk then s.records else [];
    match FirstMatch(view, name, ip)
    case Some(i) =>
      if action == Remove then Store(RemoveAt(s.records, i), s.nextId) else s
    case None =>
      if action == Add then Store(s.records + [NewRecord(s.nextId, name, ip, settings)], s.nextId + 1) else s
  }

  /** The number of (name, ip) records after one reconcile call, given the
      number before it. */
  function CountEffect(before: nat, fetchOk: bool, action: Action): nat
  {
    match action
    case Add => if !fetchOk then before + 1 else if before == 0 then 1 else before
    case Remove => if fetchOk && before > 0 then before - 1 else before
  }

  // ---------------------------------------------------------------------------
  // Counting lemmas

  lemma {:induction false} MatchCountAppend(a: seq<Record>, b: seq<Record>, name: string, ip: string)
    ensures MatchCount(a + b, name, ip) == MatchCount(a, name, ip) + MatchCount(b, name, ip)
  {
    if |a| > 0 {
      assert (a + b)[1..] == a[1..] + b;
      MatchCountAppend(a[1..], b, name, ip);
    } else {
      assert a + b == b;
    }
  }

  /** There is a first match exactly when at least one record matches. */
  lemma {:induction false} MatchCountPositiveIff(rs: seq<Record>, name: string, ip: string)
    ensures MatchCount(rs, name, ip) > 0 <==> FirstMatch(rs, name, ip).Some?
  {
    if |rs| > 0 {
      MatchCountPositiveIff(rs[1..], name, ip);
    }
  }

  /** Removing the record at `i` lowers the count of its own (name, ip) by one
      and leaves the count of every other (name', ip') as it was. */
  lemma RemoveAtCount(rs: seq<Record>, i: nat, name: string, ip: string)
    requires i < |rs|
    ensures MatchCount(RemoveAt(rs, i), name, ip)
            == MatchCount(rs, name, ip) - (if Matches(rs[i], name, ip) then 1 else 0)
  {
    assert rs == rs[..i] + [rs[i]] + rs[i + 1..];
    MatchCountAppend(rs[..i] + [rs[i]], rs[i + 1..], name, ip);
    MatchCountAppend(rs[..i], [rs[i]], name, ip);
    MatchCountAppend(rs[..i], rs[i + 1..], name, ip);
  }

  /** The full effect of one reconcile call on the record count of every
      (name', ip'): its own pair moves as `CountEffect` says, every other
      pair keeps its count. */
  lemma ReconcileCount(s: Store, fetchOk: bool, action: Action, name: string, ip: string,
                       settings: Settings, name': string, ip': string)
    ensures var after := Reconcile(s, fetchOk, action, name, ip, settings).records;
            var before := MatchCount(s.records, name', ip');
            MatchCount(after, name', ip')
              == if name' == name && ip' == ip then CountEffect(before, fetchOk, action) else before
  {
    var view := if fetchOk then s.records else [];
    FirstMatchIsFirst(view, name, ip);
    MatchCountPositiveIff(s.records, name, ip);
    MatchCountPositiveIff(view, name, ip);
    match FirstMatch(view, name, ip)
    case Some(i) =>
      if action == Remove {
        RemoveAtCount(s.records, i, name', ip');
      }
    case None =>
      if action == Add {
        var r := NewRecord(s.nextId, name, ip, settings);
        MatchCountAppend(s.records, [r], name', ip');
        assert [r][1..] == [];
      }
  }

  // ---------------------------------------------------------------------------
  // The reconciler's promises

  /** "add" when a matching A record exists and the listing succeeded:
      nothing is created or deleted. */
  lemma AddWhenPresentIsNoop(s: Store, name: string, ip: string, settings: Settings)
    requires MatchCount(s.records, name, ip) > 0
    ensures Reconcile(s, true, Add, name, ip, settings) == s
  {
    MatchCountPositiveIff(s.records, name, ip);
  }

  /** "add" when no record matches (or none could be listed): exactly one A
      record with the name, the IP and the configured ttl and proxied flag is
      appended, and every existing record stays as and where it was. */
  lemma AddWhenAbsentAppends(s: Store, fetchOk: bool, name: string, ip: string, settings: Settings)
    requires !fetchOk || MatchCount(s.records, name, ip) == 0
    ensures var r := Reconcile(s, fetchOk, Add, name, ip, settings);
            && |r.records| == |s.records| + 1
            && r.records[..|s.records|] == s.records
            && r.records[|s.records|] == Record(s.nextId, name, AType, ip, settings.ttl, settings.proxied)
            && r.nextId == s.nextId + 1
  {
    MatchCountPositiveIff(s.records, name, ip);
  }

  /** "remove" deletes the FIRST matching record in listing order and nothing
      else: every record before it and after it (later duplicates included)
      stays, in order. */
  lemma RemoveDeletesFirstMatch(s: Store, name: string, ip: string, settings: Settings, i: nat)
    requires i < |s.records| && Matches(s.records[i], name, ip)
    requires forall j :: 0 <= j < i ==> !Matches(s.records[j], name, ip)
    ensures var r := Reconcile(s, true, Remove, name, ip, settings);
            && r.records == s.records[..i] + s.records[i + 1..]
            && r.nextId == s.nextId
  {
    FirstMatchIsFirst(s.records, name, ip);
  }

  /** "remove" leaves one fewer (name, ip) record when the listing succeeded
      and there was one: later duplicates remain. */
  lemma RemoveKeepsDuplicates(s: Store, name: string, ip: string, settings: Settings)
    requires MatchCount(s.records, name, ip) > 1
    ensures MatchCount(Reconcile(s, true, Remove, name, ip, settings).records, name, ip)
            == MatchCount(s.records, name, ip) - 1 > 0
  {
    ReconcileCount(s, true, Remove, name, ip, settings, name, ip);
  }

  /** "remove" when nothing matches (or nothing could be listed) does nothing. */
  lemma RemoveWhenAbsentIsNoop(s: Store, fetchOk: bool, name: string, ip: string, settings: Settings)
    requires !fetchOk || MatchCount(s.records, name, ip) == 0
    ensures Reconcile(s, fetchOk, Remove, name, ip, settings) == s
  {
    MatchCountPositiveIff(s.records, name, ip);
  }

  /** "remove" only deletes an A record carrying the IP under the name: every
      record that does not match keeps its number of occurrences. */
  lemma RemoveSparesOthers(s: Store, fetchOk: bool, name: string, ip: string, settings: Settings, x: Record)
    requires !Matches(x, name, ip)
    ensures multiset(Reconcile(s, fetchOk, Remove, name, ip, settings).records)[x] == multiset(s.records)[x]
  {
    var view := if fetchOk then s.records else [];
    FirstMatchIsFirst(view, name, ip);
    match FirstMatch(view, name, ip)
    case Some(i) =>
      assert s.records == s.records[..i] + [s.records[i]] + s.records[i + 1..];
      assert s.records[i] != x;
    case None =>
  }

  /** "add" is idempotent once the second listing succeeds: calling it again
      right after a first call (whatever that call's listing did) changes nothing. */
  lemma AddIsIdempotent(s: Store, firstFetchOk: bool, name: string, ip: string, settings: Settings)
    ensures var once := Reconcile(s, firstFetchOk, Add, name, ip, settings);
            Reconcile(once, true, Add, name, ip, settings) == once
  {
    var once := Reconcile(s, firstFetchOk, Add, name, ip, settings);
    ReconcileCount(s, firstFetchOk, Add, name, ip, settings, name, ip);
    AddWhenPresentIsNoop(once, name, ip, settings);
  }

  /** When the listing fails, "add" creates a record even if a matching one
      already exists: the failed listing reads as the empty list, so the
      search finds nothing. */
  lemma AddAfterFailedFetchDuplicates(s: Store, name: string, ip: string, settings: Settings)
    requires MatchCount(s.records, name, ip) > 0
    ensures MatchCount(Reconcile(s, false, Add, name, ip, settings).records, name, ip)
            == MatchCount(s.records, name, ip) + 1 > 1
  {
    ReconcileCount(s, false, Add, name, ip, settings, name, ip);
  }

  /** Two A records for one name with different IPs: removing one IP deletes
      only the record carrying it. */
  lemma RemovalTargetsOnlyItsIp(settings: Settings)
    ensures var healthy := Record(1, "api.example.com", AType, "1.2.3.4", 300, false);
            var failing := Record(2, "api.example.com", AType, "5.6.7.8", 300, false);
            Reconcile(Store([healthy, failing], 3), true, Remove, "api.example.com", "5.6.7.8", settings)
              == Store([healthy], 3)
  {
    var healthy := Record(1, "api.example.com", AType, "1.2.3.4", 300, false);
    var failing := Record(2, "api.example.com", AType, "5.6.7.8", 300, false);
    assert !Matches(healthy, "api.example.com", "5.6.7.8");
    RemoveDeletesFirstMatch(Store([healthy, failing], 3), "api.example.com", "5.6.7.8", settings, 1);
  }

  /** Reconciling keeps the zone well formed (distinct ids, all issued). */
  lemma ReconcileKeepsValid(s: Store, fetchOk: bool, action: Action, name: string, ip: string, settings: Settings)
    requires ValidStore(s)
    ensures ValidStore(Reconcile(s, fetchOk, action, name, ip, settings))
  {
    var view := if fetchOk then s.records else [];
    match FirstMatch(view, name, ip)
    case Some(i) =>
      if action == Remove {
        WithoutDistinctIsRemoveAt(s.records, i);
        WithoutKeepsValid(s, s.records[i].id);
      }
    case None =>
  }

  // ---------------------------------------------------------------------------
  // The implementation

  /** The scan of `update_dns_record`: walk the listed records in order and
      stop at the first A record for (name, ip). */
  method FindRecord(records: seq<Record>, dnsEntry: string, ip: string) returns (found: Option<nat>)
    ensures found == FirstMatch(records, dnsEntry, ip)
  {
    FirstMatchIsFirst(records, dnsEntry, ip);
    var i := 0;
    while i < |records|
      invariant 0 <= i <= |records|
      invariant forall j :: 0 <= j < i ==> !Matches(records[j], dnsEntry, ip)
    {
      var record := records[i];
      if record.name == dnsEntry && record.rtype == AType && record.content == ip {
        assert FirstMatch(records, dnsEntry, ip) == Some(i);
        return Some(i);
      }
      i := i + 1;
    }
    return None;
  }

  /** `update_dns_record`: list the zone's records, scan them for the first
      match, delete it on "remove" and stop on any match; with no match,
      create the record on "add". */
  method UpdateDnsRecord(zone: Zone, settings: Settings, action: Action, dnsEntry: string, ip: string, fetchOk: bool)
    requires zone.Valid()
    modifies zone
    ensures zone.Valid()
    ensures zone.Snapshot() == Reconcile(old(zone.Snapshot()), fetchOk, action, dnsEntry, ip, settings)
  {
    ghost var before := zone.Snapshot();
    ReconcileKeepsValid(before, fetchOk, action, dnsEntry, ip, settings);
    var records := zone.ListRecords(fetchOk);
    var found := FindRecord(records, dnsEntry, ip);
    match found
    case Some(i) =>
      if action == Remove {
        assert fetchOk && records == before.records;
        WithoutDistinctIsRemoveAt(records, i);
        zone.DeleteRecord(records[i].id);
      }
    case None =>
      if action == Add {
        var newId := zone.CreateRecord(AType, dnsEntry, ip, settings.ttl, settings.proxied);
      }
  }
}

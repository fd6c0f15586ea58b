/** The DNS provider as the monitor sees it: one zone whose record list can be
    fetched, and from which records can be deleted by id or to which A records
    can be added. The HTTP transport is not modelled; each call either returns
    the listing (or its failure) or changes the zone as the provider would. */
module ProviderClient {
  import opened DnsTypes

  /** The records left after the provider deletes the record(s) with id `id`. */
  function Without(rs: seq<Record>, id: RecordId): (r: seq<Record>)
    ensures |r| <= |rs|
    ensures forall k :: 0 <= k < |r| ==> r[k].id != id
  {
    if |rs| == 0 then []
    else if rs[0].id == id then Without(rs[1..], id)
    else [rs[0]] + Without(rs[1..], id)
  }

  /** With distinct ids, deleting the id of the record at position `i` removes
      exactly that record and keeps every other one in its place. */
  lemma {:induction false} WithoutDistinctIsRemoveAt(rs: seq<Record>, i: nat)
    requires i < |rs|
    requires forall a, b :: 0 <= a < b < |rs| ==> rs[a].id != rs[b].id
    ensures Without(rs, rs[i].id) == rs[..i] + rs[i + 1..]
  {
    var tail := rs[1..];
    if i == 0 {
      assert forall a :: 0 <= a < |tail| ==> tail[a] == rs[a + 1];
      WithoutAbsent(tail, rs[0].id);
    } else {
      assert tail[i - 1] == rs[i];
      assert forall a, b :: 0 <= a < b < |tail| ==> tail[a] == rs[a + 1] && tail[b] == rs[b + 1];
      WithoutDistinctIsRemoveAt(tail, i - 1);
      assert rs[0].id != rs[i].id;
      calc {
        Without(rs, rs[i].id);
        [rs[0]] + Without(tail, rs[i].id);
        [rs[0]] + (tail[..i - 1] + tail[i..]);
        { assert [rs[0]] + tail[..i - 1] == rs[..i]; assert tail[i..] == rs[i + 1..]; }
        rs[..i] + rs[i + 1..];
      }
    }
  }

  /** Every record left after a delete was in the zone before it. */
  lemma {:induction false} WithoutKeepsOnlyOld(rs: seq<Record>, id: RecordId)
    ensures forall k :: 0 <= k < |Without(rs, id)| ==> Without(rs, id)[k] in rs[..]
  {
    if |rs| > 0 {
      WithoutKeepsOnlyOld(rs[1..], id);
      assert forall x :: x in rs[1..] ==> x in rs;
    }
  }

  /** Deleting an id keeps the zone well formed. */
  lemma {:induction false} WithoutKeepsValid(s: Store, id: RecordId)
    requires ValidStore(s)
    ensures ValidStore(Store(Without(s.records, id), s.nextId))
    decreases |s.records|
  {
    var rs := s.records;
    if |rs| > 0 {
      var tail := rs[1..];
      WithoutKeepsValid(Store(tail, s.nextId), id);
      if rs[0].id != id {
        var w := Without(tail, id);
        WithoutKeepsOnlyOld(tail, id);
        forall b | 0 <= b < |w| ensures w[b].id != rs[0].id {
          var c :| 0 <= c < |tail| && tail[c] == w[b];
          assert rs[c + 1] == w[b];
        }
        assert Without(rs, id) == [rs[0]] + w;
      }
    }
  }

  /** Deleting an id that no record carries leaves the records as they are. */
  lemma {:induction false} WithoutAbsent(rs: seq<Record>, id: RecordId)
    requires forall a :: 0 <= a < |rs| ==> rs[a].id != id
    ensures Without(rs, id) == rs
  {
    if |rs| > 0 {
      WithoutAbsent(rs[1..], id);
      assert rs == [rs[0]] + rs[1..];
    }
  }

  /** One Cloudflare zone, updated in place by the monitor's delete and create calls. */
  class Zone {
    var records: seq<Record>
    var nextId: RecordId

    ghost predicate Valid()
      reads this
    {
      ValidStore(Store(records, nextId))
    }

    /** The zone's state as a value. */
    function Snapshot(): (s: Store)
      reads this
      ensures s.records == records && s.nextId == nextId
    {
      Store(records, nextId)
    }

    constructor (initial: Store)
      requires ValidStore(initial)
      ensures Valid() && Snapshot() == initial
    {
      records := initial.records;
      nextId := initial.nextId;
    }

    /** `get_dns_records`: the zone's current records, or the empty list when
        retrieving them failed (`ok` is false). */
    method ListRecords(ok: bool) returns (rs: seq<Record>)
      ensures ok ==> rs == records
      ensures !ok ==> rs == []
    {
      if ok {
        rs := records;
      } else {
        rs := [];
      }
    }

    /** The DELETE call for one record id. */
    method DeleteRecord(id: RecordId)
      requires Valid()
      modifies this
      ensures Valid()
      ensures records == Without(old(records), id) && nextId == old(nextId)
    {
      WithoutKeepsValid(Store(records, nextId), id);
      records := Without(records, id);
    }

    /** The POST call creating one record; the provider assigns its id. */
    method CreateRecord(rtype: string, name: string, content: string, ttl: int, proxied: bool)
      returns (id: RecordId)
      requires Valid()
      modifies this
      ensures Valid()
      ensures id == old(nextId)
      ensures records == old(records) + [Record(id, name, rtype, content, ttl, proxied)]
      ensures nextId == old(nextId) + 1
    {
      id := nextId;
      records := records + [Record(id, name, rtype, content, ttl, proxied)];
      nextId := nextId + 1;
    }
  }
}

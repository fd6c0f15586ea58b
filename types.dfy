/** Values shared by the health evaluator, the reconciler and the cycle scheduler
    of the Cloudflare DNS monitor. */
module DnsTypes {

  datatype Option<T> = None | Some(value: T)

  /** The two actions the health check hands to the reconciler: "add" and "remove". */
  datatype Action = Add | Remove

  /** Provider-assigned record identifier. The provider's ids are opaque; only
      their distinctness matters to the monitor. */
  type RecordId = nat

  /** One DNS record as the provider lists it. */
  datatype Record = Record(id: RecordId, name: string, rtype: string, content: string, ttl: int, proxied: bool)

  /** The record settings the monitor applies to every record it creates
      (the `ttl` and `proxied` entries of the configuration's Cloudflare section). */
  datatype Settings = Settings(ttl: int, proxied: bool)

  /** The provider's zone: its records in listing order, and the next id it hands out. */
  datatype Store = Store(records: seq<Record>, nextId: RecordId)

  /** A well-formed zone: ids are pairwise distinct and all below the next id to be issued. */
  predicate ValidStore(s: Store) {
    && (forall i, j :: 0 <= i < j < |s.records| ==> s.records[i].id != s.records[j].id)
    && (forall i :: 0 <= i < |s.records| ==> s.records[i].id < s.nextId)
  }
}

/** The idempotency store as the profile handler uses it: a table from request fingerprint to
    cached record. Its two backends are not part of this model; the table is a map, and the
    backend's I/O failures are given as the fingerprints whose reads or writes fail. */
module Idempotency {
  import opened Wrappers
  import opened Text
  import opened Domain

  /** Identifies one request: the client's idempotency key, the caller, the method, the route
      and the hash of the canonical body ("" for the record that claims the key). */
  datatype Fingerprint = Fingerprint(
    key: string,
    subject: SubjectID,
    httpMethod: string,
    route: string,
    bodyHash: string)

  /** A cached response, or, with status 0, the body hash that claimed a key. */
  datatype Record = Record(statusCode: int, contentType: string, body: seq<byte>, createdAt: int)

  datatype StoreError = IOError

  /** What a store holds, and which of its operations fail. */
  datatype Backend = Backend(
    records: map<Fingerprint, Record>,
    failingGets: set<Fingerprint>,
    failingPuts: set<Fingerprint>)

  /** The records after a write: the record is stored, unless writing under that fingerprint
      fails, in which case nothing changes. */
  function AfterPut(b: Backend, fp: Fingerprint, rec: Record): (r: map<Fingerprint, Record>)
    ensures fp !in b.failingPuts ==> fp in r && r[fp] == rec
    ensures forall k :: k != fp ==> (k in r <==> k in b.records) && (k in r ==> r[k] == b.records[k])
    ensures fp in b.failingPuts ==> r == b.records
  {
    if fp in b.failingPuts then b.records else b.records[fp := rec]
  }

  class Store {
    var records: map<Fingerprint, Record>
    const failingGets: set<Fingerprint>
    const failingPuts: set<Fingerprint>

    constructor (gets: set<Fingerprint>, puts: set<Fingerprint>)
      ensures records == map[] && failingGets == gets && failingPuts == puts
    {
      records := map[];
      failingGets := gets;
      failingPuts := puts;
    }

    ghost function State(): Backend
      reads this
    {
      Backend(records, failingGets, failingPuts)
    }

    /** `Get`: the record under `fp`, if any, or an I/O error. */
    method Get(fp: Fingerprint) returns (r: Result<Option<Record>, StoreError>)
      ensures fp in failingGets ==> r == Err(IOError)
      ensures fp !in failingGets ==> r.Ok? && (r.value.Some? <==> fp in records)
      ensures fp !in failingGets && fp in records ==> r.value == Some(records[fp])
    {
      if fp in failingGets {
        return Err(IOError);
      }
      if fp in records {
        return Ok(Some(records[fp]));
      }
      r := Ok(None);
    }

    /** `Put`: stores `rec` under `fp`, replacing what was there, or fails and changes nothing. */
    method Put(fp: Fingerprint, rec: Record) returns (err: Option<StoreError>)
      modifies this
      ensures err.Some? <==> fp in failingPuts
      ensures records == AfterPut(old(State()), fp, rec)
    {
      if fp in failingPuts {
        return Some(IOError);
      }
      records := records[fp := rec];
      err := None;
    }
  }
}

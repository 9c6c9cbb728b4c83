/** The stored responses (localStorage key `trip_responses`, script.js:27):
    a map from participant code to `{status, ts}`, read with a missing entry
    meaning "Pending" (script.js:93, 206), written last-write-wins by
    `saveResponse` (script.js:181-184). */
module Responses {

  import opened Roster

  /** The ISO-8601 text of `new Date().toISOString()`, supplied by the caller. */
  type Timestamp = string

  /** "Pending" (never stored by the page), "Interested", "Not Interested". */
  datatype Status = Pending | Interested | NotInterested

  datatype Record = Record(status: Status, ts: Timestamp)

  type ResponseMap = map<string, Record>

  /** `responses[code]?.status || "Pending"`. */
  function StatusOf(r: ResponseMap, code: string): (st: Status)
    ensures code !in r ==> st == Pending
  {
    if code in r then r[code].status else Pending
  }

  /** The status a card's buttons write: "Interested" or "Not Interested". */
  function ButtonStatus(yes: bool): (st: Status)
    ensures st != Pending
  {
    if yes then Interested else NotInterested
  }

  /** `responses[code] = { status, ts }` on the stored map. */
  function Save(r: ResponseMap, code: string, status: Status, ts: Timestamp): ResponseMap {
    r[code := Record(status, ts)]
  }

  /** Every stored key is a roster code. */
  predicate KeysInRoster(r: ResponseMap) {
    forall code :: code in r ==> IsRosterCode(code)
  }

  /** Reading the saved code back yields the saved status and time stamp; every
      other code keeps its record, or stays absent. */
  lemma SaveReadBack(r: ResponseMap, code: string, status: Status, ts: Timestamp)
    ensures StatusOf(Save(r, code, status, ts), code) == status
    ensures code in Save(r, code, status, ts) && Save(r, code, status, ts)[code].ts == ts
    ensures Save(r, code, status, ts).Keys == r.Keys + {code}
    ensures forall other :: other != code ==>
              (other in Save(r, code, status, ts) <==> other in r) &&
              (other in r ==> Save(r, code, status, ts)[other] == r[other])
  {
  }

  /** The page only writes roster codes (the card buttons, script.js:122-123),
      so the stored map keeps only roster keys. */
  lemma SaveKeepsRosterKeys(r: ResponseMap, code: string, status: Status, ts: Timestamp)
    requires KeysInRoster(r) && IsRosterCode(code)
    ensures KeysInRoster(Save(r, code, status, ts))
  {
  }
}

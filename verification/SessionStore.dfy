// The session store: one record per session, replaced atomically under a
// compare-and-swap on status and update time.
module SessionStore {
  import opened Wrappers
  import opened Mission

  // A file on disk either holds some record or bytes that do not parse.
  datatype Stored = Record(session: Session) | Damaged

  type Records = map<SessionId, Stored>

  // Which of the three file accesses of one replacement succeed.
  datatype Disk = Disk(readOk: bool, writeOk: bool, rereadOk: bool)

  function ReadRecord(records: Records, id: SessionId, readOk: bool): Result<Session, ServiceError> {
    if id !in records then Err(NotFound)
    else if !readOk then Err(StorageFailure)
    else match records[id]
      case Damaged => Err(Corrupt)
      case Record(s) => if Consistent(s) && s.id == id then Ok(s) else Err(Corrupt)
  }

  function CreateIn(records: Records, s: Session, disk: Disk): (Records, Result<Session, ServiceError>) {
    if s.id in records then (records, Err(AlreadyExists))
    else if !disk.writeOk then (records, Err(StorageFailure))
    else
      var written := records[s.id := Record(s)];
      (written, ReadRecord(written, s.id, disk.rereadOk))
  }

  function ReplaceIn(records: Records, s: Session, expected: Status, expectedUpdatedAt: int, disk: Disk)
    : (Records, Result<Session, ServiceError>)
  {
    var current := ReadRecord(records, s.id, disk.readOk);
    if current.Err? then (records, Err(current.error))
    else if current.value.status != expected then (records, Err(CasConflict))
    else if current.value.updatedAt != expectedUpdatedAt then (records, Err(CasConflict))
    else if !disk.writeOk then (records, Err(StorageFailure))
    else
      var written := records[s.id := Record(s)];
      (written, ReadRecord(written, s.id, disk.rereadOk))
  }

  class SessionStore {
    var records: Records

    constructor ()
      ensures records == map[]
    {
      records := map[];
    }

    method CreateSession(s: Session, disk: Disk) returns (r: Result<Session, ServiceError>)
      modifies this
      ensures (records, r) == CreateIn(old(records), s, disk)
    {
      if s.id in records {
        return Err(AlreadyExists);
      }
      if !disk.writeOk {
        return Err(StorageFailure);
      }
      records := records[s.id := Record(s)];
      r := ReadSession(s.id, disk.rereadOk);
    }

    method ReadSession(id: SessionId, readOk: bool) returns (r: Result<Session, ServiceError>)
      ensures r == ReadRecord(records, id, readOk)
    {
      if id !in records {
        return Err(NotFound);
      }
      if !readOk {
        return Err(StorageFailure);
      }
      match records[id] {
        case Damaged => return Err(Corrupt);
        case Record(s) =>
          if !Consistent(s) || s.id != id {
            return Err(Corrupt);
          }
          return Ok(s);
      }
    }

    method ReplaceSession(s: Session, expected: Status, expectedUpdatedAt: int, disk: Disk)
      returns (r: Result<Session, ServiceError>)
      modifies this
      ensures (records, r) == ReplaceIn(old(records), s, expected, expectedUpdatedAt, disk)
    {
      var current := ReadSession(s.id, disk.readOk);
      if current.Err? {
        return current;
      }
      if current.value.status != expected || current.value.updatedAt != expectedUpdatedAt {
        return Err(CasConflict);
      }
      if !disk.writeOk {
        return Err(StorageFailure);
      }
      records := records[s.id := Record(s)];
      r := ReadSession(s.id, disk.rereadOk);
    }
  }

  /** A swap based on a record just read under the lock cannot be refused as stale:
      it stores the new record or fails on the disk, and touches no other session. */
  lemma SwapAfterRead(records: Records, before: Session, after: Session, disk: Disk)
    requires before.id in records && records[before.id] == Record(before)
    requires Consistent(before) && after.id == before.id
    ensures var (written, r) := ReplaceIn(records, after, before.status, before.updatedAt, disk);
      && r != Err(CasConflict)
      && (r.Ok? ==> r.value == after && Consistent(after) && written[before.id] == Record(after))
      && (written == records || written == records[before.id := Record(after)])
      && (Consistent(after) && r.Err? ==> r.error == StorageFailure)
  {
  }
}

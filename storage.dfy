/**
 * The token store: an in-memory map from hash to verification record,
 * rewritten in full to a backing JSON file after every change.
 */
module Store {
  /** One pending verification: the address being verified and the hash issued for it. */
  datatype VerificationData = VerificationData(email: string, hash: string)

  type Records = map<string, VerificationData>

  /** Every record is filed under its own hash. */
  ghost predicate WellKeyed(m: Records) {
    forall h :: h in m ==> m[h].hash == h
  }

  /** What the file named by the store holds. */
  datatype FileState =
    | Missing                    // no file of that name
    | Snapshot(records: Records) // a complete JSON encoding of a map
    | Truncated                  // created (so emptied), but the encoding did not complete

  /** How one attempt to rewrite the file ends: `os.Create` fails, the JSON encoding fails, or all is written. */
  datatype WriteOutcome = Written | CreateFailed | EncodeFailed

  /** The file after an attempt to write the map m into it. */
  function AfterWrite(before: FileState, m: Records, io: WriteOutcome): (after: FileState)
    ensures after == Snapshot(m) <==> io == Written || (io == CreateFailed && before == Snapshot(m))
    ensures io != Written ==> after == before || after == Truncated
  {
    match io
    case Written => Snapshot(m)
    case CreateFailed => before
    case EncodeFailed => Truncated
  }

  class Storage {
    const filename: string
    var data: Records
    /** The content of the file named `filename`. */
    var disk: FileState

    /** The store is in step with its file: the file holds exactly the in-memory map. */
    ghost predicate Persisted()
      reads this
    {
      disk == Snapshot(data)
    }

    /** NewStorage: an empty map, then whatever the file holds, if it holds a whole map. */
    constructor (filename: string, disk: FileState)
      ensures this.filename == filename && this.disk == disk
      ensures disk.Snapshot? ==> data == disk.records && Persisted()
      ensures !disk.Snapshot? ==> data == map[]
    {
      this.filename := filename;
      this.data := map[];
      this.disk := disk;
      new;
      LoadFromFile();
    }

    /**
     * Decodes the file into the map. A missing file is the first run and not an
     * error; an undecodable file is ignored. JSON decoding into a non-empty map
     * adds to it.
     */
    method LoadFromFile()
      modifies this`data
      ensures disk.Snapshot? ==> data == old(data) + disk.records
      ensures !disk.Snapshot? ==> data == old(data)
    {
      match disk {
        case Snapshot(records) => data := data + records;
        case Missing =>
        case Truncated =>
      }
    }

    /** Rewrites the whole map to the file; ok is false when the write failed. */
    method SaveToFile(io: WriteOutcome) returns (ok: bool)
      modifies this`disk
      ensures ok <==> io == Written
      ensures ok ==> Persisted()
      ensures disk == AfterWrite(old(disk), data, io)
    {
      match io {
        case CreateFailed =>
          return false;
        case EncodeFailed =>
          disk := Truncated;
          return false;
        case Written =>
          disk := Snapshot(data);
          return true;
      }
    }

    /**
     * Files {email, hash} under hash, replacing any earlier record, then
     * rewrites the file. A failed write is reported but the map keeps the change.
     */
    method Save(email: string, hash: string, io: WriteOutcome) returns (ok: bool)
      modifies this`data, this`disk
      // The first three clauses are the per-key reading of the whole-map clause after them.
      ensures hash in data && data[hash] == VerificationData(email, hash)
      ensures forall h :: h != hash ==> (h in data <==> h in old(data))
      ensures forall h :: h != hash && h in data ==> data[h] == old(data)[h]
      ensures data == old(data)[hash := VerificationData(email, hash)]
      ensures WellKeyed(old(data)) ==> WellKeyed(data)
      ensures ok <==> io == Written
      ensures ok ==> Persisted()
      ensures disk == AfterWrite(old(disk), data, io)
    {
      data := data[hash := VerificationData(email, hash)];
      ok := SaveToFile(io);
    }

    /** Looks hash up; an absent hash gives Go's zero record and false. */
    method Get(hash: string) returns (rec: VerificationData, found: bool)
      ensures found <==> hash in data
      ensures found ==> rec == data[hash]
      ensures !found ==> rec == VerificationData("", "")
    {
      found := hash in data;
      rec := if found then data[hash] else VerificationData("", "");
    }

    /**
     * Removes the record for hash, if any (an absent hash is not an error),
     * then rewrites the file. A failed write is reported but the map keeps the change.
     */
    method Delete(hash: string, io: WriteOutcome) returns (ok: bool)
      modifies this`data, this`disk
      // The first four clauses are the per-key reading of the whole-map clause after them.
      ensures hash !in data
      ensures forall h :: h != hash ==> (h in data <==> h in old(data))
      ensures forall h :: h in data ==> data[h] == old(data)[h]
      ensures hash !in old(data) ==> data == old(data)
      ensures data == old(data) - {hash}
      ensures WellKeyed(old(data)) ==> WellKeyed(data)
      ensures ok <==> io == Written
      ensures ok ==> Persisted()
      ensures disk == AfterWrite(old(disk), data, io)
    {
      data := data - {hash};
      ok := SaveToFile(io);
    }
  }

  /**
   * A record saved with a successful write survives a restart: a store built
   * afresh from the same file finds it.
   */
  method SavedRecordSurvivesRestart(s: Storage, email: string, hash: string)
    returns (rec: VerificationData, found: bool)
    modifies s
    ensures found && rec == VerificationData(email, hash)
  {
    var ok := s.Save(email, hash, Written);
    var restarted := new Storage(s.filename, s.disk);
    rec, found := restarted.Get(hash);
  }
}

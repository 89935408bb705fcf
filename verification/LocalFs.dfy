/** The directory store, one operation at a time.  What happens when operations of several
    processes interleave file by file is the subject of Register.  SHA-256 is a parameter. */
module LocalFs {
  import opened Wrappers

  type Bytes = seq<int>

  datatype Error = InvalidId | IdMismatch | NotFound | VersionConflict

  /** A pointer: a blob file and a version file; an absent version file reads as 0. */
  datatype Files = Files(blob: Option<Bytes>, version: Option<nat>) {
    function Version(): nat {
      if version.None? then 0 else version.value
    }
  }

  predicate ValidId(id: string) {
    id != "" && '/' !in id && '\\' !in id
  }

  class Store {
    const sha: Bytes -> string
    var blobs: map<string, Bytes>
    var manifest: Files
    var roster: Files

    constructor (sha: Bytes -> string)
      ensures this.sha == sha && blobs == map[]
      ensures manifest == Files(None, None) && roster == Files(None, None)
    {
      this.sha := sha;
      blobs, manifest, roster := map[], Files(None, None), Files(None, None);
    }

    /** Every blob is stored under the hash of its content. */
    ghost predicate Addressed()
      reads this
    {
      forall id | id in blobs :: sha(blobs[id]) == id
    }

    method PutBlob(id: string, data: Bytes) returns (r: Outcome<Error>)
      requires Addressed()
      modifies this`blobs
      ensures Addressed()
      ensures r.Pass? <==> ValidId(id) && sha(data) == id
      ensures r.Fail? ==> blobs == old(blobs)
      ensures r.Pass? ==> id in blobs && (id !in old(blobs) ==> blobs == old(blobs)[id := data])
      ensures r.Pass? && id in old(blobs) ==> blobs == old(blobs)
    {
      if !ValidId(id) {
        return Fail(InvalidId);
      }
      if sha(data) != id {
        return Fail(IdMismatch);
      }
      if id in blobs {
        return Pass;
      }
      blobs := blobs[id := data];
      return Pass;
    }

    method GetBlob(id: string) returns (r: Result<Bytes, Error>)
      ensures r == if id in blobs then Ok(blobs[id]) else Err(NotFound)
    {
      return if id in blobs then Ok(blobs[id]) else Err(NotFound);
    }

    method DeleteBlob(id: string) returns (r: Outcome<Error>)
      modifies this`blobs
      ensures r.Pass? <==> ValidId(id)
      ensures blobs == if r.Pass? then old(blobs) - {id} else old(blobs)
    {
      if !ValidId(id) {
        return Fail(InvalidId);
      }
      blobs := blobs - {id};
      return Pass;
    }

    method GetManifest() returns (blob: Option<Bytes>, v: nat)
      ensures v == manifest.Version()
      ensures blob == if v == 0 then None else manifest.blob
    {
      v := manifest.Version();
      blob := if v == 0 then None else manifest.blob;
    }

    method CasManifest(expected: nat, blob: Bytes, next: nat) returns (r: Outcome<Error>)
      modifies this`manifest
      ensures r == if old(manifest).Version() == expected then Pass else Fail(VersionConflict)
      ensures manifest == if r.Pass? then Files(Some(blob), Some(next)) else old(manifest)
    {
      if manifest.Version() != expected {
        return Fail(VersionConflict);
      }
      manifest := manifest.(blob := Some(blob));
      manifest := manifest.(version := Some(next));
      return Pass;
    }

    method GetRoster() returns (blob: Option<Bytes>, v: nat)
      ensures blob == roster.blob && v == if blob.None? then 0 else roster.Version()
    {
      blob := roster.blob;
      v := if blob.None? then 0 else roster.Version();
    }

    method CasRoster(expected: nat, blob: Bytes, next: nat) returns (r: Outcome<Error>)
      modifies this`roster
      ensures r == if (if old(roster).blob.None? then 0 else old(roster).Version()) == expected then Pass
                   else Fail(VersionConflict)
      ensures roster == if r.Pass? then Files(Some(blob), Some(next)) else old(roster)
    {
      var cur := 0;
      if roster.blob.Some? {
        cur := roster.Version();
      }
      if cur != expected {
        return Fail(VersionConflict);
      }
      roster := roster.(blob := Some(blob));
      roster := roster.(version := Some(next));
      return Pass;
    }
  }
}

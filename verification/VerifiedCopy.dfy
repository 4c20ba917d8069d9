/**
 The offline distribution verifier: hash an archive while snapshotting it, check the
 signature over the digest, publish the snapshot with an atomic non-replacing link.
 Any step may fail with an operating-system error, the archive may grow while it is
 read, and somebody else may create the destination at any time. In a calm run no step
 fails and nobody else creates the destination.
 */
module VerifiedCopy {
  import opened Bits

  type Bytes = seq<byte>

  datatype Option<T> = None | Some(value: T)

  /** `BHF.DIST.TARBALL.ED25519.V1` and a zero byte. */
  const DOMAIN: Bytes := [66, 72, 70, 46, 68, 73, 83, 84, 46, 84, 65, 82, 66, 65, 76, 76, 46, 69, 68, 50, 53, 53,
                          49, 57, 46, 86, 49, 0]
  const CHUNK_BYTES: nat := 0x10_0000

  function Min(a: int, b: int): int { if a <= b then a else b }

  /** How a step can end: normally, with a `VerificationError`, or with an `OSError`. */
  datatype Exn = Fine | Verification(rejected: bool, published: bool) | Os

  /** How a run ends. */
  datatype Report = Verified(digest: Bytes, size: nat, copied: bool) | Failed(exn: Exn)

  /** The publication a caller is told about. */
  predicate ReportsPublication(r: Report)
  {
    match r
    case Verified(_, _, copied) => copied
    case Failed(exn) => exn.Verification? && exn.published
  }

  // -------------------------------------------------------------------- the world

  /** An archive being read: it may end, grow or fail at any moment. */
  class Archive {
    ghost var taken: Bytes
    ghost var ended: bool  // the last read found the end

    constructor ()
      ensures taken == [] && !ended
    {
      taken, ended := [], false;
    }

    method Read(max: nat, calm: bool) returns (chunk: Bytes, failed: bool)
      requires max > 0
      modifies this
      ensures calm ==> !failed
      ensures |chunk| <= max && (failed ==> chunk == []) && taken == old(taken) + chunk
      ensures ended <==> chunk == [] && !failed
    {
      chunk, failed := *, *;
      failed := failed && !calm;
      if failed || |chunk| > max { chunk := []; }
      taken, ended := taken + chunk, chunk == [] && !failed;
    }
  }

  class Disk {
    var destination: Option<Bytes>
    ghost var linkedByUs: Option<Bytes>  // what this run linked, if it did

    constructor (existing: Option<Bytes>)
      ensures destination == existing && linkedByUs == None
    {
      destination, linkedByUs := existing, None;
    }

    /** Other processes may create the destination, never replace it. */
    method Others(calm: bool)
      modifies this`destination
      ensures calm || old(destination).Some? ==> destination == old(destination)
    {
      var create: bool, theirs: Bytes := *, *;
      if destination.None? && create && !calm { destination := Some(theirs); }
    }

    /** `os.link`: atomic, refuses an existing name, may fail for other reasons. */
    method Link(snapshot: Bytes, calm: bool) returns (exists_: bool, failed: bool)
      requires linkedByUs == None
      modifies this
      ensures calm ==> !failed
      ensures exists_ <==> old(destination).Some?
      ensures if exists_ || failed then destination == old(destination) && linkedByUs == None
              else destination == Some(snapshot) == linkedByUs
    {
      exists_, failed := destination.Some?, *;
      failed := failed && !calm;
      if !exists_ && !failed { destination, linkedByUs := Some(snapshot), Some(snapshot); }
    }
  }

  /** A step that may fail with an operating-system error. */
  method DiskError(calm: bool) returns (exn: Exn)
    ensures !exn.Verification? && (calm ==> exn.Fine?)
  {
    exn := Fine;
    if !calm {
      if * { exn := Os; }
    }
  }

  // ------------------------------------------------------------------------- hashing

  /** `hash_archive`; `statSize` is the size seen before reading. */
  method HashArchive(source: Archive, statSize: nat, limit: nat, sha: Bytes -> Bytes, keep: bool,
                     calm: bool)
    returns (exn: Exn, digest: Bytes, size: nat, snapshot: Bytes)
    requires source.taken == []
    modifies source
    ensures |source.taken| <= limit + 1
    // an archive over the limit is refused, and in a calm run no other
    ensures exn.Verification? ==> !exn.rejected && !exn.published && (statSize > limit || |source.taken| > limit)
    ensures statSize > limit || |source.taken| > limit ==> !exn.Fine?
    ensures calm ==> !exn.Os?
    ensures exn.Fine? ==> source.ended && digest == sha(source.taken) && size == |source.taken| <= limit
                          && (keep ==> snapshot == source.taken)
  {
    exn, digest, size, snapshot := Fine, [], 0, [];
    if statSize > limit { exn := Verification(false, false); return; }
    var hashed: Bytes := [];
    while true
      invariant exn.Fine? && size == |source.taken| <= limit && hashed == source.taken
      invariant keep ==> snapshot == source.taken
      decreases limit - size
    {
      var chunk, failed := source.Read(Min(CHUNK_BYTES, limit - size + 1), calm);
      if failed { exn := Os; return; }
      if chunk == [] {
        assert source.taken == hashed;
        break;
      }
      size := size + |chunk|;
      if size > limit { exn := Verification(false, false); return; }
      hashed := hashed + chunk;
      if keep {
        exn := DiskError(calm);
        if !exn.Fine? { return; }
        snapshot := snapshot + chunk;
      }
    }
    if keep {
      exn := DiskError(calm);
      if !exn.Fine? { return; }
    }
    digest := sha(hashed);
  }

  // --------------------------------------------------------------------- publication

  /** `publish_snapshot`: a failed directory sync still reports the published copy. */
  method PublishSnapshot(disk: Disk, snapshot: Bytes, calm: bool) returns (exn: Exn)
    requires disk.linkedByUs == None
    modifies disk
    ensures old(disk.destination).Some? ==> disk.destination == old(disk.destination)
    ensures disk.linkedByUs.Some? ==> disk.linkedByUs == Some(snapshot) == disk.destination
    ensures exn.Fine? ==> disk.linkedByUs.Some?
    ensures exn.Verification? ==> !exn.rejected && (exn.published <==> disk.linkedByUs.Some?)
    ensures exn.Os? ==> disk.linkedByUs.None?
    // a calm run fails exactly on an existing destination
    ensures calm ==> (exn.Fine? <==> old(disk.destination).None?) && !exn.Os?
  {
    var exists_, failed := disk.Link(snapshot, calm);
    if exists_ { exn := Verification(false, false); return; }
    if failed { exn := Os; return; }
    exn := DiskError(calm);
    if !exn.Fine? { exn := Verification(false, true); }
  }

  /** A step that touches nothing modelled here and may fail either way. */
  method AnyFailure(calm: bool) returns (exn: Exn)
    ensures exn.Verification? ==> !exn.rejected && !exn.published
    ensures calm ==> exn.Fine?
  {
    exn := DiskError(calm);
    if exn.Os? {
      if * { exn := Verification(false, false); }
    }
  }

  /** What the archive read so far, and its size beforehand, have to be. */
  ghost predicate Acceptable(taken: Bytes, statSize: nat, limit: nat, sha: Bytes -> Bytes, verifies: Bytes -> bool)
  {
    statSize <= limit && |taken| <= limit && verifies(DOMAIN + sha(taken))
  }

  /** The `with` body of `verify_archive`: the error in flight when it ends, what was
      established, and the value of `published`. */
  method StagedWork(disk: Disk, source: Archive, statSize: nat, limit: nat, wantCopy: bool,
                    sha: Bytes -> Bytes, verifies: Bytes -> bool, calm: bool)
    returns (exn: Exn, digest: Bytes, size: nat, published: bool)
    requires disk.linkedByUs == None && source.taken == []
    modifies disk, source
    ensures |source.taken| <= limit + 1
    ensures old(disk.destination).Some? ==> disk.destination == old(disk.destination)
    ensures published <==> disk.linkedByUs.Some?
    ensures published ==> wantCopy && disk.linkedByUs == Some(source.taken) == disk.destination
                          && source.ended && |source.taken| <= limit && verifies(DOMAIN + sha(source.taken))
    ensures exn.Fine? ==> source.ended && digest == sha(source.taken) && size == |source.taken| <= limit
                          && verifies(DOMAIN + digest) && (published <==> wantCopy)
    ensures exn.Verification? ==> (exn.published <==> published) && (exn.rejected ==> !published)
    ensures exn.Verification? && exn.rejected ==> source.ended && |source.taken| <= limit
                                                  && !verifies(DOMAIN + sha(source.taken))
    ensures exn.Os? ==> !published
    // in a calm run all and only acceptable archives pass
    ensures calm && (wantCopy ==> old(disk.destination).None?) ==>
              (exn.Fine? <==> Acceptable(source.taken, statSize, limit, sha, verifies)) && !exn.Os?
    ensures calm && (wantCopy ==> old(disk.destination).None?) ==>
              (exn.Verification? && statSize <= limit && |source.taken| <= limit ==> exn.rejected)
  {
    digest, size, published := [], 0, false;
    exn := AnyFailure(calm);                   // staging directory, crypto self-test, opening the archive
    if !exn.Fine? { return; }
    var snapshot;
    exn, digest, size, snapshot := HashArchive(source, statSize, limit, sha, wantCopy, calm);
    if !exn.Fine? { return; }
    exn := AnyFailure(calm);                   // closing the files, running OpenSSL
    if !exn.Fine? { return; }
    if !verifies(DOMAIN + digest) { exn := Verification(true, false); return; }
    if wantCopy {
      disk.Others(calm);
      exn := PublishSnapshot(disk, snapshot, calm);
      published := exn.Fine? || (exn.Verification? && exn.published);
    }
  }

  /** What a caller has to get right: the limits, the key and signature files and, for a copy,
      a free destination. */
  predicate GoodArguments(maxBytes: int, timeout: int, keyAndSignatureOk: bool, free: bool)
  {
    maxBytes > 0 && 1 <= timeout <= 120 && keyAndSignatureOk && free
  }

  /** `verify_archive` and the report of `main`: `keyAndSignatureOk` stands for the checks
      of the key file and the signature file. */
  method VerifyArchive(disk: Disk, source: Archive, statSize: nat, maxBytes: int, timeout: int,
                       keyAndSignatureOk: bool, wantCopy: bool, sha: Bytes -> Bytes, verifies: Bytes -> bool,
                       calm: bool)
    returns (r: Report)
    requires disk.linkedByUs == None && source.taken == []
    modifies disk, source
    // at most one byte beyond the limit is ever read
    ensures |source.taken| <= if maxBytes > 0 then maxBytes + 1 else 0
    // an existing destination is never replaced
    ensures old(disk.destination).Some? ==> disk.destination == old(disk.destination) && (wantCopy ==> !r.Verified?)
    // the reported publication state is the real one, on every exit
    ensures ReportsPublication(r) <==> disk.linkedByUs.Some?
    // whatever was published is exactly what was verified
    ensures disk.linkedByUs.Some? ==> disk.destination == disk.linkedByUs == Some(source.taken)
                                      && source.ended && verifies(DOMAIN + sha(source.taken))
    ensures r.Verified? ==> source.ended && r.digest == sha(source.taken) && r.size == |source.taken| <= maxBytes
                            && verifies(DOMAIN + r.digest) && (r.copied <==> wantCopy)
    // a rejection means a complete read whose signature check failed
    ensures r.Failed? && r.exn.Verification? && r.exn.rejected ==> source.ended && !verifies(DOMAIN + sha(source.taken))
    ensures r.Failed? ==> !r.exn.Fine?
    // in a calm run, good arguments and an acceptable archive are all it takes
    ensures calm ==>
              (r.Verified? <==> GoodArguments(maxBytes, timeout, keyAndSignatureOk,
                                              !wantCopy || old(disk.destination).None?)
                                && Acceptable(source.taken, statSize, maxBytes, sha, verifies))
  {
    if maxBytes <= 0 || timeout < 1 || timeout > 120 { r := Failed(Verification(false, false)); return; }
    var exn := AnyFailure(calm);
    if !exn.Fine? { r := Failed(exn); return; }
    if !keyAndSignatureOk { r := Failed(Verification(false, false)); return; }
    if wantCopy && disk.destination.Some? { r := Failed(Verification(false, false)); return; }
    var digest, size, published;
    exn, digest, size, published := StagedWork(disk, source, statSize, maxBytes, wantCopy, sha, verifies, calm);
    var cleanup := DiskError(calm);            // removing the staging directory, masking any error in flight
    if cleanup.Os? { exn := cleanup; }
    if exn.Os? && published { exn := Verification(false, true); }
    r := if exn.Fine? then Verified(digest, size, wantCopy) else Failed(exn);
  }
}

/** The heap's files as the operating system shows them, what of them is durable, and the calls that
change them. Every call may fail. */
module Files {
  import opened Bytes

  function WriteAt(file: Blob, offset: nat, data: Blob): (r: Blob)
    ensures |r| >= offset + |data|
  {
    var front := if offset <= |file| then file[..offset] else file + seq(offset - |file|, _ => 0 as Byte);
    front + data + (if offset + |data| < |file| then file[offset + |data|..] else [])
  }

  /** A read of bytes that are not all there fails. */
  function ReadAt(file: Blob, offset: nat, count: nat): Result<Blob> {
    if InBounds(file, offset, count) then Ok(Slice(file, offset, count)) else Err(StorageFault)
  }

  lemma {:induction false} WriteAtEnd(file: Blob, data: Blob)
    ensures WriteAt(file, |file|, data) == file + data
  {
    assert file[..|file|] == file;
  }

  /** From one string to another that it begins. */
  predicate Between(from: Blob, s: Blob, to: Blob) {
    from <= s <= to
  }

  /** A call failed, and the disk counts it, or it did not. */
  predicate Tallied<T>(r: Result<T>, before: nat, after: nat) {
    if r.Ok? then after == before else r == Err(StorageFault) && after == before + 1
  }

  /** The heap's files. What can be read may not be durable yet: a crash may leave any of the contents
      in `snapshotLeft` and `walLeft`. The name of the snapshot leads, once the directory is synced, to
      one of `namedLeft`. */
  class Disk {
    var snapshot: Option<Blob>
    var temporary: Blob
    var wal: Blob
    ghost var snapshotLeft: iset<Option<Blob>>
    ghost var namedLeft: iset<Option<Blob>>
    ghost var temporaryDurable: bool
    ghost var walLeft: iset<Blob>
    ghost var faults: nat

    /** What can be read is durable. */
    ghost predicate Settled()
      reads this
    {
      snapshotLeft == iset{snapshot} && namedLeft == snapshotLeft && walLeft == iset{wal}
    }

    constructor (snapshot: Option<Blob>, wal: Blob)
      ensures this.snapshot == snapshot && this.temporary == [] && this.wal == wal
      ensures Settled() && faults == 0
    {
      this.snapshot, this.temporary, this.wal, faults := snapshot, [], wal, 0;
      snapshotLeft, namedLeft, walLeft, temporaryDurable := iset{snapshot}, iset{snapshot}, iset{wal}, false;
    }

    /** A read that would have this outcome, if the disk does not fail. */
    method Attempt<T>(outcome: Result<T>) returns (r: Result<T>)
      modifies this`faults
      ensures (r == outcome && faults == old(faults)) || (r == Err(StorageFault) && faults == old(faults) + 1)
    {
      r := outcome;
      if * {
        r, faults := Err(StorageFault), faults + 1;
      }
    }

    method Read(file: Blob, offset: nat, count: nat) returns (r: Result<Blob>)
      modifies this`faults
      ensures (r == ReadAt(file, offset, count) && faults == old(faults)) || (r == Err(StorageFault) && faults == old(faults) + 1)
    {
      r := Attempt(ReadAt(file, offset, count));
    }

    method TruncateTemporary() returns (r: Result<()>)
      modifies this`temporary, this`temporaryDurable, this`faults
      ensures Tallied(r, old(faults), faults)
      ensures r.Ok? ==> temporary == []
    {
      r := Attempt(Ok(()));
      if r.Ok? {
        temporary, temporaryDurable := [], false;
      }
    }

    /** A failed write leaves the temporary file in any state. */
    method WriteTemporary(offset: nat, data: Blob) returns (r: Result<()>)
      modifies this`temporary, this`temporaryDurable, this`faults
      ensures Tallied(r, old(faults), faults)
      ensures r.Ok? ==> temporary == WriteAt(old(temporary), offset, data)
    {
      temporaryDurable := false;
      r := Attempt(Ok(()));
      if r.Ok? {
        temporary := WriteAt(temporary, offset, data);
      } else {
        temporary := *;
      }
    }

    method FlushTemporary() returns (r: Result<()>)
      modifies this`temporaryDurable, this`faults
      ensures Tallied(r, old(faults), faults)
      ensures temporaryDurable == (r.Ok? || old(temporaryDurable))
    {
      r := Attempt(Ok(()));
      if r.Ok? {
        temporaryDurable := true;
      }
    }

    /** Renames the temporary file over the snapshot: wholly or not at all. Until the directory is
        synced a crash may undo it; and if the file was not flushed, a crash may leave anything in it. */
    method ReplaceSnapshot() returns (r: Result<()>)
      modifies this`snapshot, this`snapshotLeft, this`namedLeft, this`faults
      ensures Tallied(r, old(faults), faults)
      ensures snapshot == if r.Ok? then Some(temporary) else old(snapshot)
      ensures r.Ok? && temporaryDurable ==> namedLeft == iset{Some(temporary)}
      ensures snapshotLeft == if r.Ok? then old(snapshotLeft) + namedLeft else old(snapshotLeft)
      ensures r.Err? ==> namedLeft == old(namedLeft)
    {
      r := Attempt(Ok(()));
      if r.Ok? {
        snapshot, namedLeft := Some(temporary), *;
        if temporaryDurable {
          namedLeft := iset{Some(temporary)};
        }
        snapshotLeft := snapshotLeft + namedLeft;
      }
    }

    method SyncDirectory() returns (r: Result<()>)
      modifies this`snapshotLeft, this`faults
      ensures Tallied(r, old(faults), faults)
      ensures snapshotLeft == if r.Ok? then namedLeft else old(snapshotLeft)
    {
      r := Attempt(Ok(()));
      if r.Ok? {
        snapshotLeft := namedLeft;
      }
    }

    /** Appends; a failed append may leave any prefix of the data. Until the file is flushed, a crash
        may leave any prefix of what was appended. */
    method Append(data: Blob) returns (r: Result<nat>)
      modifies this`wal, this`walLeft, this`faults
      ensures Tallied(r, old(faults), faults)
      ensures r.Ok? ==> r.value == |old(wal)| && wal == old(wal) + data
      ensures r.Err? ==> exists written: nat :: written <= |data| && wal == old(wal) + data[..written]
      ensures walLeft == old(walLeft) + iset w: Blob | Between(old(wal), w, wal)
    {
      ghost var before := wal;
      r := Attempt(Ok(|wal|));
      if r.Ok? {
        wal := wal + data;
      } else {
        var written: nat :| written <= |data|;
        wal := wal + data[..written];
      }
      walLeft := walLeft + iset w: Blob | Between(before, w, wal);
    }

    /** Until the file is flushed, a crash may undo it. */
    method Truncate(size: nat) returns (r: Result<()>)
      requires size <= |wal|
      modifies this`wal, this`walLeft, this`faults
      ensures Tallied(r, old(faults), faults)
      ensures wal == if r.Ok? then old(wal)[..size] else old(wal)
      ensures walLeft == if r.Ok? then old(walLeft) + iset{wal} else old(walLeft)
    {
      r := Attempt(Ok(()));
      if r.Ok? {
        wal := wal[..size];
        walLeft := walLeft + iset{wal};
      }
    }

    method FlushWal() returns (r: Result<()>)
      modifies this`walLeft, this`faults
      ensures Tallied(r, old(faults), faults)
      ensures walLeft == if r.Ok? then iset{wal} else old(walLeft)
    {
      r := Attempt(Ok(()));
      if r.Ok? {
        walLeft := iset{wal};
      }
    }
  }
}

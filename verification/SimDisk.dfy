/** The simulated disk's content-only crash model: every file has bytes that were
    written and bytes that were made durable; a crash falls back to the durable ones.
    A file is a list of items, each written by one call. */
module SimDisk {
  import opened ByteStrings
  import opened Versions
  import opened WriteAheadLog

  datatype Edit = CreateTable(id: nat) | DeleteTable(id: nat) | SetLastSequence(sequence: nat)

  datatype Path = Wal | Manifest | Current | CurrentTmp | SstFile(id: nat) | SstTmp(id: nat)

  datatype Item = Zero | WalRecord(rec: Record) | Edited(edit: Edit) | Image(data: Table) | ManifestName

  datatype File = File(written: seq<Item>, stable: seq<Item>)

  type Disk = map<Path, File>

  datatype DiskOp =
    | WriteAt(path: Path, offset: nat, buf: seq<Item>)
    | AppendTo(path: Path, buf: seq<Item>)
    | FsyncFile(path: Path)
    | FsyncDir
    | Rename(from: Path, to: Path)
    | RemoveFile(path: Path)

  function FileAt(d: Disk, p: Path): File {
    if p in d then d[p] else File([], [])
  }

  function Resized(s: seq<Item>, n: nat): (r: seq<Item>)
    ensures |r| >= n && s <= r
    decreases if n > |s| then n - |s| else 0
  {
    if |s| >= n then s else Resized(s + [Zero], n)
  }

  function Overwritten(s: seq<Item>, offset: nat, buf: seq<Item>): seq<Item> {
    var r := Resized(s, offset + |buf|);
    r[..offset] + buf + r[offset + |buf|..]
  }

  /** Only a sync or a rename can miss its file. */
  predicate Works(d: Disk, op: DiskOp) {
    (op.FsyncFile? ==> op.path in d) && (op.Rename? ==> op.from in d)
  }

  function Do(d: Disk, op: DiskOp): Disk {
    match op
    case WriteAt(p, offset, buf) => d[p := FileAt(d, p).(written := Overwritten(FileAt(d, p).written, offset, buf))]
    case AppendTo(p, buf) => d[p := FileAt(d, p).(written := FileAt(d, p).written + buf)]
    case FsyncFile(p) => if p in d then d[p := File(d[p].written, d[p].written)] else d
    case FsyncDir => d
    case Rename(from, to) => if from in d then (d - {from})[to := d[from]] else d
    case RemoveFile(p) => d - {p}
  }

  function DoAll(d: Disk, ops: seq<DiskOp>): Disk
    decreases |ops|
  {
    if ops == [] then d else DoAll(Do(d, ops[0]), ops[1..])
  }

  function Crashed(d: Disk): Disk {
    map p | p in d :: File(d[p].stable, d[p].stable)
  }

  class SimDisk {
    var files: Disk
    /** Every call so far, in order. */
    ghost var issued: seq<DiskOp>

    constructor ()
      ensures files == map[] && issued == []
    {
      files, issued := map[], [];
    }

    method WriteAt(p: Path, offset: nat, buf: seq<Item>)
      modifies this
      ensures files == Do(old(files), DiskOp.WriteAt(p, offset, buf))
      ensures issued == old(issued) + [DiskOp.WriteAt(p, offset, buf)]
    {
      var file := FileAt(files, p);
      var written := file.written;
      while |written| < offset + |buf|
        modifies {}
        invariant Resized(written, offset + |buf|) == Resized(file.written, offset + |buf|)
      {
        written := written + [Zero];
      }
      files := files[p := file.(written := written[..offset] + buf + written[offset + |buf|..])];
      issued := issued + [DiskOp.WriteAt(p, offset, buf)];
    }

    method AppendTo(p: Path, buf: seq<Item>)
      modifies this
      ensures files == Do(old(files), DiskOp.AppendTo(p, buf)) && issued == old(issued) + [DiskOp.AppendTo(p, buf)]
    {
      var file := FileAt(files, p);
      issued := issued + [DiskOp.AppendTo(p, buf)];
      files := files[p := file.(written := file.written + buf)];
    }

    method FsyncFile(p: Path) returns (ok: bool)
      modifies this
      ensures ok == Works(old(files), DiskOp.FsyncFile(p)) && files == Do(old(files), DiskOp.FsyncFile(p))
      ensures issued == old(issued) + [DiskOp.FsyncFile(p)]
    {
      issued := issued + [DiskOp.FsyncFile(p)];
      if p !in files {
        return false;
      }
      files := files[p := File(files[p].written, files[p].written)];
      ok := true;
    }

    /** Names are durable at once in the content-only model. */
    method FsyncDir()
      modifies this`issued
      ensures files == Do(old(files), DiskOp.FsyncDir) && issued == old(issued) + [DiskOp.FsyncDir]
    {
      issued := issued + [DiskOp.FsyncDir];
    }

    method Rename(from: Path, to: Path) returns (ok: bool)
      modifies this
      ensures ok == Works(old(files), DiskOp.Rename(from, to)) && files == Do(old(files), DiskOp.Rename(from, to))
      ensures issued == old(issued) + [DiskOp.Rename(from, to)]
    {
      issued := issued + [DiskOp.Rename(from, to)];
      if from !in files {
        return false;
      }
      var file := files[from];
      files := files - {from};
      files := files[to := file];
      ok := true;
    }

    method RemoveFile(p: Path)
      modifies this
      ensures files == Do(old(files), DiskOp.RemoveFile(p)) && issued == old(issued) + [DiskOp.RemoveFile(p)]
    {
      issued := issued + [DiskOp.RemoveFile(p)];
      files := files - {p};
    }

    method Crash()
      modifies this`files
      ensures files == Crashed(old(files))
    {
      files := map p | p in files :: File(files[p].stable, files[p].stable);
    }
  }
}

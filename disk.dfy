/**
 * The file system the converter touches, as a map from paths to file
 * records, and the handful of java.io / java.nio calls it makes. Whether a
 * call fails is decided by the caller (an oracle), never by this module.
 */
module Disk {
  import opened Wrappers
  import opened Naming

  /** A decoded image held in memory (a BufferedImage); only its identity matters here. */
  type Image = nat

  /** What a file holds: bytes that were there before, or an image the converter encoded. */
  datatype Contents = Original(id: nat) | PngImage(image: Image) | JpegImage(image: Image, quality: int)

  /** A file's contents, creation time and last-modified time. */
  datatype FileRecord = FileRecord(contents: Contents, created: nat, modified: nat)

  type FileMap = map<Path, FileRecord>

  /**
   * The files after writing `c` to `p` at time `now`: an existing file keeps
   * its creation time, a new one is created at `now`; nothing else changes.
   */
  function Saved(files: FileMap, p: Path, c: Contents, now: nat): (r: FileMap)
    ensures r.Keys == files.Keys + {p}
    ensures r[p].contents == c && r[p].modified == now
    ensures p in files ==> r[p].created == files[p].created
    ensures forall q :: q in files && q != p ==> r[q] == files[q]
  {
    files[p := if p in files then files[p].(contents := c, modified := now) else FileRecord(c, now, now)]
  }

  /** The file system, changed in place by the converter's effects. */
  class FileStore {
    var files: FileMap

    constructor (initial: FileMap)
      ensures files == initial
    {
      files := initial;
    }

    /** File.exists. */
    method Exists(p: Path) returns (b: bool)
      ensures b <==> p in files
    {
      b := p in files;
    }

    /** Reading a file's creation time fails when the file is missing or the read fails. */
    method ReadCreationTime(p: Path, readable: bool) returns (t: Option<nat>)
      ensures t == if p in files && readable then Some(files[p].created) else None
    {
      if p in files && readable {
        t := Some(files[p].created);
      } else {
        t := None;
      }
    }

    /** Encoding an image into a file; `succeeds` says whether the encoder and the write succeed. */
    method Save(p: Path, c: Contents, now: nat, succeeds: bool) returns (saved: bool)
      modifies this
      ensures saved == succeeds
      ensures files == if saved then Saved(old(files), p, c, now) else old(files)
    {
      saved := succeeds;
      if saved {
        files := Saved(files, p, c, now);
      }
    }

    /** File.delete: reports false, and removes nothing, when the file is missing or cannot be removed. */
    method Delete(p: Path, succeeds: bool) returns (deleted: bool)
      modifies this
      ensures deleted == (p in old(files) && succeeds)
      ensures files == if deleted then old(files) - {p} else old(files)
    {
      deleted := p in files && succeeds;
      if deleted {
        files := files - {p};
      }
    }

    /** Files.setLastModifiedTime: fails when the file is missing or the call fails. */
    method SetLastModifiedTime(p: Path, t: nat, succeeds: bool) returns (done: bool)
      modifies this
      ensures done == (p in old(files) && succeeds)
      ensures files == if done then old(files)[p := old(files)[p].(modified := t)] else old(files)
    {
      done := p in files && succeeds;
      if done {
        files := files[p := files[p].(modified := t)];
      }
    }
  }
}

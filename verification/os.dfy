/**
 * The part of the operating system's filesystem that the config writer
 * uses: a map from path to file (content and permission bits), exclusive
 * creation (open with O_CREATE|O_EXCL), writing to an open file and removal.
 *
 * File content is a Go string, one character per byte. Failures that the
 * filesystem itself decides (the path already exists) follow from the
 * state; every other failure of the kernel is an explicit input.
 */
module Os {

  import opened Wrappers

  type Path = string

  /** Permission bits 0600 (octal): read and write for the owner only. */
  const OwnerReadWrite: nat := 0x180

  /** True when neither the group nor others have any access. */
  predicate OwnerOnly(mode: nat)
  {
    mode % 0x40 == 0
  }

  datatype FileEntry = FileEntry(content: string, mode: nat)

  datatype Error =
    | Exist(path: Path)          // EEXIST from an exclusive create
    | OpenFailed(path: Path)     // any other failure to create the file
    | WriteFailed(path: Path)    // a write that stopped short

  /** How a write ends: all bytes written, or an error after `written` bytes. */
  datatype WriteOutcome = Complete | Interrupted(written: nat)

  /** How many bytes of data a write with this outcome gets through. */
  function Written(data: string, outcome: WriteOutcome): (k: nat)
    ensures k <= |data|
    ensures outcome.Complete? ==> k == |data|
  {
    match outcome
    case Complete => |data|
    case Interrupted(n) => if n < |data| then n else |data|
  }

  class FileSystem {
    var files: map<Path, FileEntry>

    constructor (initial: map<Path, FileEntry>)
      ensures files == initial
    {
      files := initial;
    }

    /**
     * Create an empty file at path with the given mode, failing with Exist
     * when the path is already present; `refused` stands for every other
     * reason the kernel may give (permissions, a missing directory, ...).
     */
    method CreateExclusive(path: Path, mode: nat, refused: bool) returns (err: Option<Error>)
      modifies this
      ensures path in old(files) ==> err == Some(Exist(path))
      ensures path !in old(files) && refused ==> err == Some(OpenFailed(path))
      ensures err.None? <==> path !in old(files) && !refused
      ensures err.Some? ==> files == old(files)
      ensures err.None? ==> files == old(files)[path := FileEntry("", mode)]
    {
      if path in files {
        return Some(Exist(path));
      }
      if refused {
        return Some(OpenFailed(path));
      }
      files := files[path := FileEntry("", mode)];
      err := None;
    }

    /**
     * Append data to the open file at path. An interrupted write appends
     * only the bytes it got through and reports an error.
     */
    method Write(path: Path, data: string, outcome: WriteOutcome) returns (err: Option<Error>)
      requires path in files
      modifies this
      ensures err == if outcome.Complete? then None else Some(WriteFailed(path))
      ensures files == old(files)[path := FileEntry(old(files)[path].content + data[..Written(data, outcome)],
                                                    old(files)[path].mode)]
    {
      var k := Written(data, outcome);
      files := files[path := FileEntry(files[path].content + data[..k], files[path].mode)];
      err := if outcome.Complete? then None else Some(WriteFailed(path));
    }

    /** Remove the file at path, if there is one. */
    method Remove(path: Path)
      modifies this
      ensures files == old(files) - {path}
    {
      files := files - {path};
    }
  }
}

/** The part of the file system the program touches: a set of existing
    folders and a set of existing files, each file a name inside a folder. */
module FileSystem {
  import opened Results

  /** A file, or a folder to be created, named inside a parent folder. */
  datatype Path = Path(folder: string, name: string)

  /** The full path of an entry, as a folder that can hold further entries. */
  function Child(folder: string, name: string): string {
    folder + "\\" + name
  }

  datatype FsState = FsState(folders: set<string>, files: set<Path>)

  /** The I/O exceptions the program can meet. */
  datatype IoError = MoveFailed | CreateFailed

  /** The file names inside one folder. */
  function NamesIn(s: FsState, folder: string): (r: set<string>)
    ensures forall n :: n in r <==> Path(folder, n) in s.files
  {
    set p | p in s.files && p.folder == folder :: p.name
  }

  /** `File.Move(source, destination)`: fails when the source file is
      missing, when the destination folder is missing, or when a file or a
      folder already stands at the destination; otherwise renames. */
  function Moved(s: FsState, source: Path, destination: Path): Result<FsState, IoError> {
    if source !in s.files || destination.folder !in s.folders then Failure(MoveFailed)
    else if destination in s.files || Child(destination.folder, destination.name) in s.folders then Failure(MoveFailed)
    else Success(FsState(s.folders, s.files - {source} + {destination}))
  }

  /** `DirectoryInfo.Create()` for a missing folder: fails when a file has
      that name; the parent is assumed to exist. */
  function DirectoryCreated(s: FsState, parent: string, name: string): Result<FsState, IoError> {
    if Path(parent, name) in s.files then Failure(CreateFailed)
    else Success(FsState(s.folders + {Child(parent, name)}, s.files))
  }

  /** A successful move renames exactly one file: the source is gone, the
      destination is new, and every other file and every folder stays. */
  lemma MoveRenamesOneFile(s: FsState, source: Path, destination: Path)
    requires Moved(s, source, destination).Success?
    ensures var t := Moved(s, source, destination).value;
      && source in s.files && source !in t.files
      && destination !in s.files && destination in t.files
      && (forall p :: p != source && p != destination ==> (p in t.files <==> p in s.files))
      && t.folders == s.folders
      && |t.files| == |s.files|
  {
    SwapKeepsSize(s.files, source, destination);
  }

  /** Replacing a member of a set by a non-member keeps its size. */
  lemma SwapKeepsSize<T>(files: set<T>, out: T, into: T)
    requires out in files && into !in files
    ensures |files - {out} + {into}| == |files|
  {
    var rest := files - {out};
    assert files == rest + {out};
    assert |rest| == |files| - 1;
  }

  /** The file system as a mutable object, one per run. */
  class Disk {
    var folders: set<string>
    var files: set<Path>

    constructor (init: FsState)
      ensures Snapshot() == init
    {
      folders := init.folders;
      files := init.files;
    }

    function Snapshot(): FsState
      reads this
    {
      FsState(folders, files)
    }

    /** `File.Exists`: true for files only, not for folders. */
    predicate FileExists(p: Path)
      reads this
    {
      p in files
    }

    /** `DirectoryInfo.Exists`. */
    predicate DirectoryExists(folder: string)
      reads this
    {
      folder in folders
    }

    method CreateDirectory(parent: string, name: string) returns (r: Outcome<IoError>)
      modifies this
      ensures r == match DirectoryCreated(old(Snapshot()), parent, name) case Success(_) => Pass case Failure(e) => Fail(e)
      ensures Snapshot() == if r.Pass? then DirectoryCreated(old(Snapshot()), parent, name).value else old(Snapshot())
    {
      if Path(parent, name) in files {
        r := Fail(CreateFailed);
      } else {
        folders := folders + {Child(parent, name)};
        r := Pass;
      }
    }

    method Move(source: Path, destination: Path) returns (r: Outcome<IoError>)
      modifies this
      ensures r == match Moved(old(Snapshot()), source, destination) case Success(_) => Pass case Failure(e) => Fail(e)
      ensures Snapshot() == if r.Pass? then Moved(old(Snapshot()), source, destination).value else old(Snapshot())
    {
      if source !in files || destination.folder !in folders {
        r := Fail(MoveFailed);
      } else if destination in files || Child(destination.folder, destination.name) in folders {
        r := Fail(MoveFailed);
      } else {
        files := files - {source} + {destination};
        r := Pass;
      }
    }
  }
}

/** `OrganizeJpgFiles` and the steps it runs per file: resolve the capture
    time, ensure the day's folder under the root, and move the file there
    under a collision-free name. */
module PhotoMover {
  import opened Results
  import opened Text
  import opened Dates
  import opened DateResolver
  import opened Naming
  import opened FileSystem

  /** The extension filter's list, verbatim: each entry keeps its `*`. */
  const AllowedExtensions: seq<string> := ["*.jpg", "*.HEIC", "*.png", "*.JPEG", "*.MOV", "*.MP4"]

  /** `allowedExtensions.Contains(extension, StringComparer.OrdinalIgnoreCase)`. */
  predicate IsAllowedExtension(extension: string) {
    exists i :: 0 <= i < |AllowedExtensions| && EqualsIgnoreCase(AllowedExtensions[i], extension)
  }

  /** `FileInfo.Extension` of a file name: from the last '.' to the end, or
      empty when the name has no '.'. */
  function ExtensionOf(name: string): (e: string)
    ensures e == [] <==> '.' !in name
    ensures e != [] ==> e[0] == '.' && '.' !in e[1..] && |e| <= |name| && name[|name| - |e|..] == e
  {
    if name == [] then []
    else if name[|name| - 1] == '.' then "."
    else
      var front := name[..|name| - 1];
      assert name == front + [name[|name| - 1]];
      var e := ExtensionOf(front);
      if e == [] then [] else e + [name[|name| - 1]]
  }

  /** Every listed extension starts with `*`. */
  lemma AllowedExtensionStartsWithStar(extension: string)
    requires IsAllowedExtension(extension)
    ensures |extension| > 0 && extension[0] == '*'
  {
    var i :| 0 <= i < |AllowedExtensions| && EqualsIgnoreCase(AllowedExtensions[i], extension);
    assert AllowedExtensions[i][0] == '*';
    assert Lower(extension)[0] == Lower(AllowedExtensions[i])[0];
    LowerFixesNonLetter('*', extension[0]);
  }

  /** No extension a real file reports is ever selected, so the loop of
      `OrganizeJpgFiles` moves nothing. */
  lemma RealExtensionNeverAllowed(name: string)
    ensures !IsAllowedExtension(ExtensionOf(name))
  {
    if IsAllowedExtension(ExtensionOf(name)) {
      AllowedExtensionStartsWithStar(ExtensionOf(name));
    }
  }

  /** What goes wrong for one file. */
  datatype Error =
    | MetadataUnreadable          // the metadata reader threw
    | Resolve(ResolveError)       // ExtractDateTimeOriginal threw
    | Io(IoError)                 // folder creation or the move threw

  /** The file system after one step, and where the file went or what went wrong. */
  datatype Effect = Effect(state: FsState, outcome: Result<Path, Error>)

  /** One enumerated file: where it is, the extension the enumeration
      reports for it, and what the metadata reader yields for it (`None`
      when the reader throws). */
  datatype Candidate = Candidate(file: Path, extension: string, metadata: Option<seq<MetadataDirectory>>)

  /** `CreateFolder`: creates `root\folderName` unless it already exists. */
  function EnsureFolder(s: FsState, root: string, folderName: string): Result<FsState, IoError> {
    if Child(root, folderName) in s.folders then Success(s)
    else DirectoryCreated(s, root, folderName)
  }

  /** `RenameAndMoveFile`: the name chosen in `destination` and the move to it. */
  function Relocation(s: FsState, source: Path, extension: string, value: Timestamp, destination: string): Effect
    requires IsValid(value)
  {
    var target := Path(destination, UniqueName(NamesIn(s, destination), FileStem(value), extension));
    match Moved(s, source, target)
    case Failure(e) => Effect(s, Failure(Io(e)))
    case Success(s') => Effect(s', Success(target))
  }

  /** The body of the `foreach` in `OrganizeJpgFiles` for one file; an error
      is caught and leaves the state reached so far. */
  function Step(s: FsState, root: string, c: Candidate): Effect {
    match c.metadata
    case None => Effect(s, Failure(MetadataUnreadable))
    case Some(dirs) =>
      match ExtractDateTimeOriginal(dirs)
      case Failure(e) => Effect(s, Failure(Resolve(e)))
      case Success(t) =>
        var folderName := FolderName(t);
        match EnsureFolder(s, root, folderName)
        case Failure(e) => Effect(s, Failure(Io(e)))
        case Success(s') => Relocation(s', c.file, c.extension, t, Child(root, folderName))
  }

  /** The whole loop: every candidate whose extension passes the filter is
      processed in order. */
  function Organized(s: FsState, root: string, cs: seq<Candidate>): FsState
    decreases |cs|
  {
    if cs == [] then s
    else
      var before := Organized(s, root, cs[..|cs| - 1]);
      var c := cs[|cs| - 1];
      if IsAllowedExtension(c.extension) then Step(before, root, c).state else before
  }

  /** Ensuring a folder is idempotent: afterwards the folder exists, an
      existing folder changes nothing, and a second call changes nothing. */
  lemma EnsureFolderIdempotent(s: FsState, root: string, folderName: string)
    ensures Child(root, folderName) in s.folders ==> EnsureFolder(s, root, folderName) == Success(s)
    ensures EnsureFolder(s, root, folderName).Success? ==>
      var t := EnsureFolder(s, root, folderName).value;
      && t.folders == s.folders + {Child(root, folderName)}
      && t.files == s.files
      && EnsureFolder(t, root, folderName) == Success(t)
    ensures EnsureFolder(s, root, folderName).Failure? <==>
      Child(root, folderName) !in s.folders && Path(root, folderName) in s.files
  {
  }

  /** An error leaves every file where it was; at most the day's folder has
      been created. */
  lemma StepFailureKeepsFiles(s: FsState, root: string, c: Candidate)
    requires Step(s, root, c).outcome.Failure?
    ensures Step(s, root, c).state.files == s.files
    ensures s.folders <= Step(s, root, c).state.folders
  {
  }

  /** A success moves the file into `root\yyyy-MM-dd` under the fresh name
      chosen there; no other file changes. */
  lemma StepSuccessMoves(s: FsState, root: string, c: Candidate)
    requires Step(s, root, c).outcome.Success?
    ensures c.metadata.Some? && ExtractDateTimeOriginal(c.metadata.value).Success?
    ensures var t := ExtractDateTimeOriginal(c.metadata.value).value;
      var folder := Child(root, FolderName(t));
      var e := Step(s, root, c);
      var target := e.outcome.value;
      && target == Path(folder, UniqueName(NamesIn(s, folder), FileStem(t), c.extension))
      && target.name[..10] == FolderName(t)
      && e.state.folders == s.folders + {folder}
      && c.file in s.files && target !in s.files
      && e.state.files == s.files - {c.file} + {target}
  {
    var t := ExtractDateTimeOriginal(c.metadata.value).value;
    var folder := Child(root, FolderName(t));
    var s' := EnsureFolder(s, root, FolderName(t)).value;
    assert NamesIn(s', folder) == NamesIn(s, folder);
    StemStartsWithFolderName(t);
    UniqueNameShape(NamesIn(s, folder), FileStem(t), c.extension);
  }

  /** Every step keeps the number of files: nothing is lost or copied. */
  lemma StepKeepsFileCount(s: FsState, root: string, c: Candidate)
    ensures |Step(s, root, c).state.files| == |s.files|
    ensures s.folders <= Step(s, root, c).state.folders
  {
    var e := Step(s, root, c);
    if e.outcome.Success? {
      StepSuccessMoves(s, root, c);
      SwapKeepsSize(s.files, c.file, e.outcome.value);
    } else {
      StepFailureKeepsFiles(s, root, c);
    }
  }

  /** The whole run keeps the number of files and every folder. */
  lemma {:induction false} OrganizedKeepsFiles(s: FsState, root: string, cs: seq<Candidate>)
    ensures |Organized(s, root, cs).files| == |s.files|
    ensures s.folders <= Organized(s, root, cs).folders
  {
    if cs != [] {
      OrganizedKeepsFiles(s, root, cs[..|cs| - 1]);
      StepKeepsFileCount(Organized(s, root, cs[..|cs| - 1]), root, cs[|cs| - 1]);
    }
  }

  /** With the extensions that files really have, the run changes nothing. */
  lemma {:induction false} OrganizedChangesNothing(s: FsState, root: string, cs: seq<Candidate>)
    requires forall i :: 0 <= i < |cs| ==> cs[i].extension == ExtensionOf(cs[i].file.name)
    ensures Organized(s, root, cs) == s
  {
    if cs != [] {
      OrganizedChangesNothing(s, root, cs[..|cs| - 1]);
      RealExtensionNeverAllowed(cs[|cs| - 1].file.name);
    }
  }

  /** `CreateFolder`. */
  method CreateFolder(fs: Disk, rootDirectory: string, folderName: string) returns (r: Outcome<IoError>)
    modifies fs
    ensures r == match EnsureFolder(old(fs.Snapshot()), rootDirectory, folderName) case Success(_) => Pass case Failure(e) => Fail(e)
    ensures fs.Snapshot() == if r.Pass? then EnsureFolder(old(fs.Snapshot()), rootDirectory, folderName).value
                             else old(fs.Snapshot())
  {
    if !fs.DirectoryExists(Child(rootDirectory, folderName)) {
      r := fs.CreateDirectory(rootDirectory, folderName);
    } else {
      r := Pass;
    }
  }

  /** The search in `RenameAndMoveFile`: the stem and extension, or else
      `stem (n)` for `n = 2, 3, ...` until `File.Exists` fails. */
  method FreeName(fs: Disk, directory: string, stem: string, extension: string) returns (name: string)
    ensures name == UniqueName(NamesIn(fs.Snapshot(), directory), stem, extension)
  {
    ghost var names := NamesIn(fs.Snapshot(), directory);
    name := BaseName(stem, extension);
    if fs.FileExists(Path(directory, name)) {
      var counter := 2;
      while fs.FileExists(Path(directory, name))
        invariant counter >= 2
        invariant BaseName(stem, extension) in names
        invariant name == if counter == 2 then BaseName(stem, extension)
                          else NumberedName(stem, counter - 1, extension)
        invariant forall k :: 2 <= k < counter - 1 ==> NumberedName(stem, k, extension) in names
        decreases |names| + 2 - counter
      {
        TakenBound(names, stem, extension, counter);
        name := NumberedName(stem, counter, extension);
        counter := counter + 1;
      }
      UniqueNameIsLeast(names, stem, extension, counter - 1);
    }
  }

  /** `RenameAndMoveFile`: searches for the first unused name, then moves. */
  method RenameAndMoveFile(fs: Disk, originalFile: Path, originalExtension: string, value: Timestamp, destinationDirectory: string)
    returns (r: Result<Path, Error>)
    requires IsValid(value)
    modifies fs
    ensures Effect(fs.Snapshot(), r) == Relocation(old(fs.Snapshot()), originalFile, originalExtension, value, destinationDirectory)
  {
    var formattedDateTime := FileStem(value);
    var newFileName := FreeName(fs, destinationDirectory, formattedDateTime, originalExtension);
    var target := Path(destinationDirectory, newFileName);
    var moved := fs.Move(originalFile, target);
    if moved.Pass? {
      r := Success(target);
    } else {
      r := Failure(Io(moved.error));
    }
  }

  /** The body of the `foreach`: any error is caught and the loop goes on. */
  method ProcessFile(fs: Disk, rootDirectory: string, c: Candidate) returns (r: Result<Path, Error>)
    modifies fs
    ensures Effect(fs.Snapshot(), r) == Step(old(fs.Snapshot()), rootDirectory, c)
  {
    if c.metadata.None? {
      return Failure(MetadataUnreadable);
    }
    var dateTimeOriginal := ExtractDateTimeOriginal(c.metadata.value);
    if dateTimeOriginal.Failure? {
      return Failure(Resolve(dateTimeOriginal.error));
    }
    var folderName := FolderName(dateTimeOriginal.value);
    var created := CreateFolder(fs, rootDirectory, folderName);
    if created.Fail? {
      return Failure(Io(created.error));
    }
    r := RenameAndMoveFile(fs, c.file, c.extension, dateTimeOriginal.value, Child(rootDirectory, folderName));
  }

  /** `OrganizeJpgFiles` over the enumerated files, in enumeration order. */
  method OrganizeJpgFiles(fs: Disk, rootDirectory: string, files: seq<Candidate>)
    modifies fs
    ensures fs.Snapshot() == Organized(old(fs.Snapshot()), rootDirectory, files)
  {
    for i := 0 to |files|
      invariant fs.Snapshot() == Organized(old(fs.Snapshot()), rootDirectory, files[..i])
    {
      assert files[..i + 1][..i] == files[..i];
      var file := files[i];
      if IsAllowedExtension(file.extension) {
        var _ := ProcessFile(fs, rootDirectory, file);
      }
    }
    assert files[..|files|] == files;
  }
}

# PhotoMover in Dafny

PhotoMover is a small console program. It walks a root directory, reads
each photo's or video's metadata and picks its capture time. It creates a
folder `yyyy-MM-dd` for that day under the root and moves the file into it
as `yyyy-MM-dd HHmm<ext>`. When that name is taken it uses
`yyyy-MM-dd HHmm (2)<ext>`, `(3)` and so on. This project models the
program's core in Dafny and proves what that core does.

The modules:

- **Results**: `Option`, `Result` and `Outcome` values. They stand in for
  `null` and for exceptions.
- **Text**: decimal digits, zero padding and ASCII case folding.
- **Dates**:
  - A timestamp and its validity.
  - Custom date patterns as lists of fixed-width tokens.
  - The strict `ParseExact` parsers for `yyyy:MM:dd HH:mm:ss` and
    `ddd MMM dd HH:mm:ss yyyy`.
  - The `yyyy-MM-dd` and `yyyy-MM-dd HHmm` renderings.
- **DateResolver**: `ExtractDateTimeOriginal`. The metadata directories
  are flattened into tags, and the tag priority is modelled exactly as the
  code runs it.
- **Naming**: the collision-free file name that `RenameAndMoveFile`
  searches for.
- **FileSystem**:
  - An abstract file system: a set of folders and a set of files, each
    file a `(folder, name)` pair.
  - The rules that `File.Move` and `DirectoryInfo.Create` follow on it.
  - A `Disk` class whose fields the program's calls update in place.
- **PhotoMover**:
  - The method `CreateFolder`.
  - The method `RenameAndMoveFile`, with its counter `while` loop.
  - The per-file body of `OrganizeJpgFiles` as `ProcessFile`.
  - The `foreach` of `OrganizeJpgFiles`.
  - The extension filter.
  - Each method is proved equal to a specification function (`Step`,
    `Relocation`, `Organized`). Lemmas about those functions state what a
    run does.
- **Scenarios**: concrete runs on single inputs.

Two parts of the code read as if they intend more than they do. The model
follows what the code does:

- **Tag fallback.** The code is shaped for a fallback over three tags that
  can end in "no date":
  - `ExtractDateTimeOriginal` returns `DateTimeOffset?` (Program.cs:132);
  - the caller tests for `null` (Program.cs:71, 84);
  - a third branch looks for "File Modified Date" (Program.cs:153-165).

  In fact a missing "Date/Time Original" tag sends the search to
  "Created", whose `Description` is dereferenced whether or not the tag
  was found (Program.cs:141-148). So:
  - a file with neither tag is an error, not a `null`;
  - the "File Modified Date" branch (Program.cs:153-165) is never reached.
- **Extension filter.** The filter is meant to pick photo and video files
  (the comments at Program.cs:52 and 65). Its literals (Program.cs:53) are
  `*.jpg`, `*.HEIC` and so on, and they are compared with `FileInfo.Extension`, which is
  either empty or starts with `.`. So no file is ever selected.
  - `RealExtensionNeverAllowed` proves this.
  - `OrganizedChangesNothing` proves a whole run then leaves the file
    system as it was.
  - The model keeps the literals as written. The rest of the per-file processing is
    proved for any candidate that passes, so fixing the literals would not
    change those proofs.

## Model

| member | source | states |
|---|---|---|
| Text.Pad | Program.cs:74 | a `yyyy`/`MM`-style field is rendered as exactly `w` decimal digits |
| Text.DigitsValue | Program.cs:148 | a digit field denotes a number below `10^width` |
| Text.ValueOfPad | Program.cs:74 | reading back a zero-padded field gives the number rendered, when it fits the width |
| Text.PadOfValue | Program.cs:169 | a digit field is exactly the zero-padded rendering of the number it denotes |
| Text.Decimal | Program.cs:111 | the counter `{counter}` is written in decimal digits that denote it, with no leading zero: one digit below 10, a non-zero first digit from 10 on |
| Text.Lower | Program.cs:57 | ASCII case folding maps each character by itself and keeps the length |
| Text.LowerConcat | Program.cs:57 | folding a concatenation folds each part |
| Text.LowerFixesNonLetter | Program.cs:148 | a non-letter equals, ignoring case, only itself |
| Text.DigitsIgnoreCase | Program.cs:169 | a digit string equals, ignoring case, only itself |
| Dates.RenderToken | Program.cs:97 | a token is rendered in exactly its width |
| Dates.Render | Program.cs:97 | a pattern is rendered in the sum of its tokens' widths |
| Dates.FindName | Program.cs:148 | a month or day name is found at the first index that equals it ignoring case, and absence means that no name matches |
| Dates.ParseToken | Program.cs:148 | a token parse yields only a value in the token's range (month 1-12, weekday 0-6, digits below `10^w`) |
| Dates.ParsePattern | Program.cs:148 | a strict parse yields one in-range value per token |
| Dates.FirstNameFound | Program.cs:148 | a name distinct from all earlier names is found at its own index |
| Dates.ThreeLettersDiffer | Program.cs:148 | three-letter names that differ in a folded letter are different ignoring case |
| Dates.MonthNameFound | Program.cs:145 | each of the twelve month abbreviations is found at its own index |
| Dates.DayNameFound | Program.cs:145 | each of the seven day abbreviations is found at its own index |
| Dates.ParseRenderedToken | Program.cs:148 | parsing a rendered token gives back its value |
| Dates.RenderParsedToken | Program.cs:148 | a parsed chunk equals its re-rendering ignoring case, and exactly when it is not a name |
| Dates.FindNameIgnoresCase | Program.cs:145-148 | chunks that are equal ignoring case find the same month or day name |
| Dates.TokenIgnoresCase | Program.cs:148 | a token parses chunks that are equal ignoring case to the same value |
| Dates.ParseRendered | Program.cs:169 | the strict parse of a rendered pattern gives back every value |
| Dates.RenderParsed | Program.cs:148 | any accepted string equals, ignoring case, the rendering of what was parsed |
| Dates.RenderParsedExactly | Program.cs:169 | for a pattern without names, an accepted string is exactly the rendering of what was parsed |
| Dates.NoNamesInTail | Program.cs:169 | a name-free pattern's head is not a name and its tail is name-free |
| Dates.ParseIgnoresCase | Program.cs:148 | a pattern whose literals are not letters parses strings that are equal ignoring case alike |
| Dates.ParseOriginal | Program.cs:167-169 | `yyyy:MM:dd HH:mm:ss` yields only a valid date and time |
| Dates.ParseCreated | Program.cs:145-148 | `ddd MMM dd HH:mm:ss yyyy` yields only a valid date and time |
| Dates.OriginalRoundTrip | Program.cs:167-169 | the strict parse accepts `s` as `t` if and only if `t` is valid and `s` is `t`'s canonical spelling |
| Dates.OriginalFormattedParses | Program.cs:167-169 | every valid timestamp's canonical spelling parses back to it |
| Dates.OriginalParsedIsCanonical | Program.cs:167-169 | every accepted string is the canonical spelling of its result |
| Dates.OriginalValuesShape | Program.cs:167 | values that fit the "Date/Time Original" pattern are a timestamp's fields, in pattern order |
| Dates.CreatedRoundTrip | Program.cs:145-148 | a valid timestamp rendered with any day name parses back to it |
| Dates.CreatedParsedIsCanonical | Program.cs:145-148 | every accepted "Created" string equals, ignoring case, the rendering of its result with some day name |
| Dates.CreatedValuesParsed | Program.cs:145-148 | an accepted "Created" string parses to a day name and the rendered values of its result |
| Dates.CreatedValuesShape | Program.cs:145 | values that fit the "Created" pattern are a weekday and a timestamp's fields, in pattern order |
| Dates.CreatedIgnoresCase | Program.cs:148 | "Created" strings that are equal ignoring case parse alike |
| Dates.RenderConcat | Program.cs:74 | rendering a concatenated pattern concatenates the renderings |
| Dates.StemStartsWithFolderName | Program.cs:74 | the 15-character file stem begins with the 10-character folder name of the same timestamp |
| Dates.RenderInjective | Program.cs:97 | different values fitting a pattern render to different strings |
| Dates.FolderName | Program.cs:74 | `ToString("yyyy-MM-dd")`: the folder pattern rendered from the year, month and day; FolderNameIsDate and StemStartsWithFolderName state its properties |
| Dates.FileStem | Program.cs:97 | `ToString("yyyy-MM-dd HHmm")`: the stem pattern rendered from the date, hour and minute; FileStemIsMinute and StemStartsWithFolderName state its properties |
| Dates.FolderNameIsDate | Program.cs:74 | two valid timestamps get the same folder if and only if they fall on the same day |
| Dates.FileStemIsMinute | Program.cs:97 | two valid timestamps get the same stem if and only if they fall in the same minute |
| DateResolver.AllTags | Program.cs:135 | `SelectMany` holds exactly the tags of the directories |
| DateResolver.FirstNamed | Program.cs:135-136 | `FirstOrDefault` is the first tag with the name, and is absent if and only if no tag has it |
| DateResolver.ParseExact | Program.cs:148 | parsing a description yields only a valid timestamp; a missing description or a mismatch is an error |
| DateResolver.ExtractDateTimeOriginal | Program.cs:132-170 | a resolved capture time is always a valid timestamp |
| DateResolver.AllTagsConcat | Program.cs:135 | flattening keeps directory order |
| DateResolver.FirstNamedConcat | Program.cs:136 | the first match in a concatenation comes from the first part that has one |
| DateResolver.SearchInDirectoryOrder | Program.cs:135-136 | the first directory that has a named tag decides, whatever the later directories hold |
| DateResolver.OriginalTagDecides | Program.cs:135-169 | the first "Date/Time Original" tag is parsed with `yyyy:MM:dd HH:mm:ss`, whatever "Created" or "File Modified Date" tags exist |
| DateResolver.CreatedTagDecides | Program.cs:138-150 | with no "Date/Time Original" tag, the first "Created" tag is parsed with `ddd MMM dd HH:mm:ss yyyy` |
| DateResolver.NeitherTagFails | Program.cs:138-148 | with neither tag, the result is an error and never an absent value |
| DateResolver.MalformedTagDoesNotFallBack | Program.cs:148-169 | when the chosen tag fails to parse, the result is that error, with no fallback to another tag |
| DateResolver.FirstNamedDropped | Program.cs:136 | dropping tags of another name does not change the first match |
| DateResolver.AllTagsWithout | Program.cs:135 | flattening commutes with dropping a tag name |
| DateResolver.DroppedConcat | Program.cs:135 | dropping distributes over concatenation |
| DateResolver.FileModifiedDateIgnored | Program.cs:153-165 | removing every "File Modified Date" tag never changes the result: that branch is dead |
| Naming.BaseName | Program.cs:100 | the first name tried: the stem followed by the extension |
| Naming.NumberedName | Program.cs:111 | the name tried for counter `n`: the stem, ` (`, the counter in decimal, `)` and the extension |
| Naming.NumberedNameInjective | Program.cs:111 | different counters give different names |
| Naming.BaseNameIsNotNumbered | Program.cs:100-111 | the base name is never a numbered name |
| Naming.TakenBound | Program.cs:108-113 | while the loop runs, the counter is bounded by the number of existing names, so it ends |
| Naming.FreeCounter | Program.cs:108-113 | the counter stops at the first free numbered name, and every number below it is taken |
| Naming.UniqueName | Program.cs:100-113 | the chosen name is unused; it is the base name when that is free, and otherwise `stem (n)ext` for an `n >= 2` below which every name is taken |
| Naming.UniqueNameIsLeast | Program.cs:105-113 | any `n` whose name is free while the base and every smaller number are taken is the one chosen |
| Naming.UniqueNameShape | Program.cs:100-111 | the chosen name starts with the stem and ends with the extension |
| FileSystem.NamesIn | Program.cs:103 | a name is in a folder's list if and only if that file exists |
| FileSystem.Moved | Program.cs:117 | `File.Move` fails when the source is missing, the destination folder is missing or a file or folder stands at the destination, and otherwise renames; MoveRenamesOneFile states its effect |
| FileSystem.DirectoryCreated | Program.cs:128 | `DirectoryInfo.Create` fails when a file has the folder's name, and otherwise adds the folder |
| FileSystem.MoveRenamesOneFile | Program.cs:117 | after a move the source is gone, the destination exists and was new, every other file and every folder is unchanged, and the file count is kept |
| FileSystem.Disk.constructor | Program.cs:55 | the disk starts in the given state |
| FileSystem.Disk.FileExists | Program.cs:103-108 | `File.Exists` holds for existing files only, not for folders |
| FileSystem.Disk.DirectoryExists | Program.cs:126 | `DirectoryInfo.Exists` holds for existing folders |
| FileSystem.Disk.CreateDirectory | Program.cs:128 | `Create` fails, changing nothing, when a file has the name; otherwise it adds the folder |
| FileSystem.Disk.Move | Program.cs:117 | `File.Move` does exactly what `Moved` specifies, or fails and changes nothing |
| PhotoMover.IsAllowedExtension | Program.cs:53-57 | the filter: an extension passes when it equals one of the six literals ignoring case; AllowedExtensionStartsWithStar and FilterIgnoresCaseOnly state its properties |
| PhotoMover.ExtensionOf | Program.cs:57 | `FileInfo.Extension` is empty exactly when there is no `.`, and is otherwise the suffix from the last `.` |
| PhotoMover.AllowedExtensionStartsWithStar | Program.cs:53-57 | every extension that passes the filter starts with `*` |
| PhotoMover.RealExtensionNeverAllowed | Program.cs:53-57 | no file's real extension passes the filter |
| PhotoMover.EnsureFolder | Program.cs:121-130 | `CreateFolder` on the state: nothing when `root\folderName` exists, otherwise the creation; EnsureFolderIdempotent states its properties |
| PhotoMover.Relocation | Program.cs:94-119 | `RenameAndMoveFile` on the state: the move to the name `UniqueName` picks in the destination folder |
| PhotoMover.Step | Program.cs:61-90 | one loop body on the state: resolve, ensure the folder, move, with any error leaving the state reached; StepFailureKeepsFiles and StepSuccessMoves state its properties |
| PhotoMover.Organized | Program.cs:50-92 | the whole loop on the state: Step for each candidate that passes the filter, in order; OrganizedKeepsFiles and OrganizedChangesNothing state its properties |
| PhotoMover.EnsureFolderIdempotent | Program.cs:121-130 | ensuring an existing folder changes nothing; a success adds exactly the folder, and ensuring it again changes nothing |
| PhotoMover.StepFailureKeepsFiles | Program.cs:63-90 | a file whose processing fails is left where it was, and so is every other file |
| PhotoMover.StepSuccessMoves | Program.cs:69-80 | a success moves exactly that file into `root\yyyy-MM-dd`, under the fresh name chosen there, whose first ten characters are the folder name |
| PhotoMover.StepKeepsFileCount | Program.cs:59-91 | every step keeps the number of files and never removes a folder |
| PhotoMover.OrganizedKeepsFiles | Program.cs:59-91 | a whole run keeps the number of files and every folder |
| PhotoMover.OrganizedChangesNothing | Program.cs:53-59 | when every candidate's extension is its real one, a whole run changes nothing |
| PhotoMover.CreateFolder | Program.cs:121-130 | creates `root\folderName` only when it is missing, reporting a creation error and otherwise leaving the disk as `EnsureFolder` says |
| PhotoMover.FreeName | Program.cs:100-113 | the `while (File.Exists(...))` loop stops at exactly the name `UniqueName` specifies for the folder's current files |
| PhotoMover.RenameAndMoveFile | Program.cs:94-119 | the name search and the move: the disk and the result are those of `Relocation` |
| PhotoMover.ProcessFile | Program.cs:61-90 | one pass of the loop body leaves the disk and returns the result that `Step` gives |
| PhotoMover.OrganizeJpgFiles | Program.cs:50-92 | the disk ends as `Organized`: each file that passes the filter is processed in order |
| Scenarios.ThirdNameInFolder | Program.cs:103-113 | with the base name and `(2)` taken, the next file of that minute is named `(3)` |
| Scenarios.PhotoFolder | Program.cs:74 | a photo from 10 May 2023 goes to the folder `2023-05-10` |
| Scenarios.DayFields | Program.cs:74 | the fields of 10 May 2023 are padded to `2023`, `05` and `10` |
| Scenarios.MalformedOriginalIsReported | Program.cs:135-169 | an unparsable "Date/Time Original" is a format error even when a valid "Created" tag follows, and nothing moves |
| Scenarios.FilterIgnoresCaseOnly | Program.cs:53-57 | `*.JPG` passes the filter and `.jpg` does not |

## Left out

- `Main` and `IsDirectoryValid` (Program.cs:10-47) are not modelled: they only prompt on the console and check that a directory exists.
- `ImageMetadataReader.ReadMetadata` is a foreign library. Its output is an input: a sequence of directories of `(name, description)` tags, or `None` when reading throws.
- Recursive enumeration by `EnumerateFiles` is not modelled. The candidates are given as a sequence in enumeration order, each with its `FileInfo.Extension`. A lazy enumeration that meets files moved during the loop is not modelled, nor is how an already-moved file is read again.
- Dates.ParseOriginal and Dates.ParseCreated use fixed English month and day names, `:` as the time separator, the Gregorian calendar and no time-zone offset. The local offset that `DateTimeOffset.ParseExact` attaches is not modelled. Nor is the current culture, whose names, separators and calendar both `ParseExact` and `ToString` use under a `null` provider (Program.cs:74, 97, 148, 169).
- Dates.ParseCreated does not check that the day name agrees with the date. Any of the seven names is accepted.
- Dates.ParseOriginal and Dates.ParseCreated accept exactly the pattern, with no surrounding white space. The library's default handling of white space is not modelled.
- Week-day names and month names are folded ASCII-only. Non-ASCII case rules do not arise for these names.
- The `ddd MMM dd HH:mm:ss zzzz yyyy` pattern of the "File Modified Date" branch is not modelled as a parser. The branch can never run, and DateResolver.FileModifiedDateIgnored proves it.
- FileSystem.Disk.Move models `File.Move` as a rename inside an abstract file system. It leaves out atomicity, moves across volumes, locks, permissions and the race between `File.Exists` and the move with other writers.
- FileSystem.Disk.CreateDirectory adds only the leaf folder `root\name`, whether or not `root` is itself a folder. It does not create missing ancestors as `DirectoryInfo.Create` does.
- Paths are `(folder, name)` pairs joined by `\`. The difference between `Path.Combine` (Program.cs:123) and string concatenation (Program.cs:80, 100) is not modelled.
- PhotoMover.RenameAndMoveFile uses an unbounded counter. The 32-bit wrap-around of `int counter` would need more than two billion existing names, so it is not modelled.
- Exceptions are modelled as error values, one per kind of failure. The messages are not modelled.
- Naming.UniqueName and FileSystem.Moved compare file names exactly, case included. On a disk that ignores case, as Windows disks do (the program joins paths with `\`), `File.Exists` also finds a name that differs only in case. For example, with `2023-05-10 1430.JPG` present, a `.jpg` from the same minute gets `2023-05-10 1430 (2).jpg` on such a disk. The model picks `2023-05-10 1430.jpg`.
- PhotoMover.IsAllowedExtension folds ASCII letters only. `StringComparer.OrdinalIgnoreCase` (Program.cs:57) also folds non-ASCII letters. No non-ASCII extension equals one of the six literals under the model's folding, and the model does not decide whether one would under the full folding.
- Console output is not modelled anywhere.

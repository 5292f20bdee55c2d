/** Concrete runs of the model on single files. */
module Scenarios {
  import opened Results
  import opened Text
  import opened Dates
  import opened DateResolver
  import opened Naming
  import opened FileSystem
  import opened PhotoMover

  /** With the base name and `(2)` taken, the next file of that minute gets `(3)`. */
  lemma ThirdNameInFolder()
    ensures UniqueName({"2024-01-01 1200.jpg", "2024-01-01 1200 (2).jpg"}, "2024-01-01 1200", ".jpg")
            == "2024-01-01 1200 (3).jpg"
  {
    var names := {"2024-01-01 1200.jpg", "2024-01-01 1200 (2).jpg"};
    assert Decimal(2) == "2" && Decimal(3) == "3";
    assert BaseName("2024-01-01 1200", ".jpg") == "2024-01-01 1200.jpg";
    assert NumberedName("2024-01-01 1200", 2, ".jpg") == "2024-01-01 1200 (2).jpg";
    assert NumberedName("2024-01-01 1200", 3, ".jpg") == "2024-01-01 1200 (3).jpg";
    assert "2024-01-01 1200 (3).jpg" !in names by {
      assert |"2024-01-01 1200 (3).jpg"| == |"2024-01-01 1200 (2).jpg"|;
      assert "2024-01-01 1200 (3).jpg"[17] != "2024-01-01 1200 (2).jpg"[17];
      assert |"2024-01-01 1200 (3).jpg"| != |"2024-01-01 1200.jpg"|;
    }
    UniqueNameIsLeast(names, "2024-01-01 1200", ".jpg", 3);
  }

  /** A photo taken on 10 May 2023 goes to the folder `2023-05-10`. */
  lemma PhotoFolder()
    ensures FolderName(Timestamp(2023, 5, 10, 14, 30, 0)) == "2023-05-10"
  {
    DayFields();
  }

  lemma DayFields()
    ensures Pad(2023, 4) == "2023" && Pad(5, 2) == "05" && Pad(10, 2) == "10"
  {
    assert Pad(2023, 4) == "2023";
    assert Pad(5, 2) == "05";
  }

  /** A "Date/Time Original" tag that does not parse is reported as a format
      error, even when a valid "Created" tag follows it, and nothing moves. */
  lemma MalformedOriginalIsReported(s: FsState, root: string, file: Path, extension: string)
    ensures var dirs := [MetadataDirectory([Tag(DateTimeOriginalName, Some("not-a-date")),
                                            Tag(CreatedName, Some("Wed May 10 14:30:00 2023"))])];
            Step(s, root, Candidate(file, extension, Some(dirs))) == Effect(s, Failure(Resolve(FormatMismatch)))
  {
    var dirs := [MetadataDirectory([Tag(DateTimeOriginalName, Some("not-a-date")),
                                    Tag(CreatedName, Some("Wed May 10 14:30:00 2023"))])];
    assert "not-a-date"[..4] == "not-" && !IsDigit('n');
    assert ParseOriginal("not-a-date") == None;
    OriginalTagDecides(dirs, 0);
  }

  /** The filter compares without regard to case, so an extension spelled
      like a listed entry in other letters passes; `.jpg` itself does not. */
  lemma FilterIgnoresCaseOnly()
    ensures IsAllowedExtension("*.JPG")
    ensures !IsAllowedExtension(".jpg")
  {
    assert Lower("*.JPG") == "*.jpg" == Lower(AllowedExtensions[0]);
    if IsAllowedExtension(".jpg") {
      AllowedExtensionStartsWithStar(".jpg");
    }
  }
}

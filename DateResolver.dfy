/** `ExtractDateTimeOriginal`: picks the capture time of a file from the
    metadata directories the reader produced for it. */
module DateResolver {
  import opened Results
  import opened Text
  import opened Dates

  /** A metadata tag. Its description may be `null`. */
  datatype Tag = Tag(name: string, description: Option<string>)

  /** One directory (namespace) of tags, in the order the reader lists them. */
  datatype MetadataDirectory = MetadataDirectory(tags: seq<Tag>)

  /** The exception a resolution raises. */
  datatype ResolveError =
    | TagMissing          // the "Created" lookup found nothing and was dereferenced
    | DescriptionMissing  // the chosen tag had a null description
    | FormatMismatch      // the description did not match its exact pattern

  /** The two patterns `ParseExact` is called with. */
  datatype DateFormat = OriginalFormat | CreatedFormat

  const DateTimeOriginalName := "Date/Time Original"
  const CreatedName := "Created"
  const FileModifiedDateName := "File Modified Date"

  /** `directories.SelectMany(directory => directory.Tags)`. */
  function AllTags(dirs: seq<MetadataDirectory>): (r: seq<Tag>)
    ensures forall t :: t in r <==> exists d :: d in dirs && t in d.tags
  {
    if dirs == [] then [] else dirs[0].tags + AllTags(dirs[1..])
  }

  /** `FirstOrDefault(tag => tag.Name == name)`. */
  function FirstNamed(tags: seq<Tag>, name: string): (r: Option<Tag>)
    ensures r.None? <==> forall i :: 0 <= i < |tags| ==> tags[i].name != name
    ensures r.Some? ==> exists i :: 0 <= i < |tags| && tags[i] == r.value && r.value.name == name &&
                                    forall j :: 0 <= j < i ==> tags[j].name != name
  {
    if tags == [] then None
    else if tags[0].name == name then Some(tags[0])
    else
      var r := FirstNamed(tags[1..], name);
      assert forall i :: 1 <= i < |tags| ==> tags[i] == tags[1..][i - 1];
      r
  }

  /** `DateTimeOffset.ParseExact(tag.Description!, format, null)`. */
  function ParseExact(description: Option<string>, format: DateFormat): (r: Result<Timestamp, ResolveError>)
    ensures r.Success? ==> IsValid(r.value)
  {
    match description
    case None => Failure(DescriptionMissing)
    case Some(s) =>
      var parsed := if format == OriginalFormat then ParseOriginal(s) else ParseCreated(s);
      match parsed
      case None => Failure(FormatMismatch)
      case Some(t) => Success(t)
  }

  /** The resolution as the code is written: the first "Date/Time Original"
      tag if there is one; else the first "Created" tag, dereferenced whether
      or not it was found. The "File Modified Date" fallback that follows it
      in the source is never reached, and no `null` is ever returned. */
  function ExtractDateTimeOriginal(dirs: seq<MetadataDirectory>): (r: Result<Timestamp, ResolveError>)
    ensures r.Success? ==> IsValid(r.value)
  {
    var tags := AllTags(dirs);
    match FirstNamed(tags, DateTimeOriginalName)
    case Some(tag) => ParseExact(tag.description, OriginalFormat)
    case None =>
      match FirstNamed(tags, CreatedName)
      case None => Failure(TagMissing)
      case Some(tag) => ParseExact(tag.description, CreatedFormat)
  }

  lemma {:induction false} AllTagsConcat(a: seq<MetadataDirectory>, b: seq<MetadataDirectory>)
    ensures AllTags(a + b) == AllTags(a) + AllTags(b)
  {
    if a != [] {
      AppendTail(a, b);
      AllTagsConcat(a[1..], b);
    } else {
      assert a + b == b;
    }
  }

  lemma {:induction false} FirstNamedConcat(a: seq<Tag>, b: seq<Tag>, name: string)
    ensures FirstNamed(a + b, name) == if FirstNamed(a, name).Some? then FirstNamed(a, name) else FirstNamed(b, name)
  {
    if a != [] {
      AppendTail(a, b);
      FirstNamedConcat(a[1..], b, name);
    } else {
      assert a + b == b;
    }
  }

  /** Tags are searched directory by directory: a directory is consulted only
      when no earlier directory holds a tag of that name. */
  lemma SearchInDirectoryOrder(before: seq<MetadataDirectory>, d: MetadataDirectory, after: seq<MetadataDirectory>, name: string)
    requires forall e, t :: e in before && t in e.tags ==> t.name != name
    ensures FirstNamed(AllTags(before + [d] + after), name) ==
            if FirstNamed(d.tags, name).Some? then FirstNamed(d.tags, name) else FirstNamed(AllTags(after), name)
  {
    AllTagsConcat(before + [d], after);
    AllTagsConcat(before, [d]);
    assert AllTags([d]) == d.tags by {
      assert [d][1..] == [];
    }
    FirstNamedConcat(AllTags(before) + d.tags, AllTags(after), name);
    FirstNamedConcat(AllTags(before), d.tags, name);
    assert FirstNamed(AllTags(before), name).None? by {
      forall i | 0 <= i < |AllTags(before)| ensures AllTags(before)[i].name != name {
        assert AllTags(before)[i] in AllTags(before);
      }
    }
  }

  /** If a "Date/Time Original" tag exists, the first one decides the result
      by the `yyyy:MM:dd HH:mm:ss` pattern; "Created" tags play no part. */
  lemma OriginalTagDecides(dirs: seq<MetadataDirectory>, i: nat)
    requires i < |AllTags(dirs)| && AllTags(dirs)[i].name == DateTimeOriginalName
    requires forall j :: 0 <= j < i ==> AllTags(dirs)[j].name != DateTimeOriginalName
    ensures ExtractDateTimeOriginal(dirs) == ParseExact(AllTags(dirs)[i].description, OriginalFormat)
  {
  }

  /** Without any "Date/Time Original" tag, the first "Created" tag decides
      the result by the `ddd MMM dd HH:mm:ss yyyy` pattern. */
  lemma CreatedTagDecides(dirs: seq<MetadataDirectory>, i: nat)
    requires forall j :: 0 <= j < |AllTags(dirs)| ==> AllTags(dirs)[j].name != DateTimeOriginalName
    requires i < |AllTags(dirs)| && AllTags(dirs)[i].name == CreatedName
    requires forall j :: 0 <= j < i ==> AllTags(dirs)[j].name != CreatedName
    ensures ExtractDateTimeOriginal(dirs) == ParseExact(AllTags(dirs)[i].description, CreatedFormat)
  {
  }

  /** With neither tag the resolution fails: the commented "not found" path
      that returns `null` is unreachable. */
  lemma NeitherTagFails(dirs: seq<MetadataDirectory>)
    requires forall d, t :: d in dirs && t in d.tags ==> t.name != DateTimeOriginalName && t.name != CreatedName
    ensures ExtractDateTimeOriginal(dirs) == Failure(TagMissing)
  {
    var tags := AllTags(dirs);
    forall i | 0 <= i < |tags| ensures tags[i].name != DateTimeOriginalName && tags[i].name != CreatedName {
      assert tags[i] in tags;
    }
  }

  /** A found tag whose description does not parse is an error; a later
      tag is never tried instead. */
  lemma MalformedTagDoesNotFallBack(dirs: seq<MetadataDirectory>)
    ensures FirstNamed(AllTags(dirs), DateTimeOriginalName).Some? &&
            ParseExact(FirstNamed(AllTags(dirs), DateTimeOriginalName).value.description, OriginalFormat).Failure?
            ==> ExtractDateTimeOriginal(dirs) ==
                ParseExact(FirstNamed(AllTags(dirs), DateTimeOriginalName).value.description, OriginalFormat)
    ensures FirstNamed(AllTags(dirs), DateTimeOriginalName).None? &&
            FirstNamed(AllTags(dirs), CreatedName).Some? &&
            ParseExact(FirstNamed(AllTags(dirs), CreatedName).value.description, CreatedFormat).Failure?
            ==> ExtractDateTimeOriginal(dirs) ==
                ParseExact(FirstNamed(AllTags(dirs), CreatedName).value.description, CreatedFormat)
  {
  }

  /** The directories with every tag of the given name removed. */
  function WithoutTag(dirs: seq<MetadataDirectory>, name: string): (r: seq<MetadataDirectory>)
    ensures |r| == |dirs|
    ensures forall k :: 0 <= k < |dirs| ==>
      forall t :: t in r[k].tags <==> t in dirs[k].tags && t.name != name
  {
    if dirs == [] then []
    else [MetadataDirectory(Dropped(dirs[0].tags, name))] + WithoutTag(dirs[1..], name)
  }

  function Dropped(tags: seq<Tag>, name: string): (r: seq<Tag>)
    ensures forall t :: t in r <==> t in tags && t.name != name
  {
    if tags == [] then []
    else if tags[0].name == name then Dropped(tags[1..], name)
    else [tags[0]] + Dropped(tags[1..], name)
  }

  lemma {:induction false} FirstNamedDropped(tags: seq<Tag>, other: string, name: string)
    requires other != name
    ensures FirstNamed(Dropped(tags, other), name) == FirstNamed(tags, name)
  {
    if tags != [] {
      FirstNamedDropped(tags[1..], other, name);
    }
  }

  lemma {:induction false} AllTagsWithout(dirs: seq<MetadataDirectory>, name: string)
    ensures AllTags(WithoutTag(dirs, name)) == Dropped(AllTags(dirs), name)
  {
    if dirs != [] {
      AllTagsWithout(dirs[1..], name);
      DroppedConcat(dirs[0].tags, AllTags(dirs[1..]), name);
      assert WithoutTag(dirs, name)[1..] == WithoutTag(dirs[1..], name);
    }
  }

  lemma {:induction false} DroppedConcat(a: seq<Tag>, b: seq<Tag>, name: string)
    ensures Dropped(a + b, name) == Dropped(a, name) + Dropped(b, name)
  {
    if a != [] {
      AppendTail(a, b);
      DroppedConcat(a[1..], b, name);
    } else {
      assert a + b == b;
    }
  }

  /** The "File Modified Date" branch is dead: adding or removing such tags
      never changes the result. */
  lemma FileModifiedDateIgnored(dirs: seq<MetadataDirectory>)
    ensures ExtractDateTimeOriginal(WithoutTag(dirs, FileModifiedDateName)) == ExtractDateTimeOriginal(dirs)
  {
    AllTagsWithout(dirs, FileModifiedDateName);
    FirstNamedDropped(AllTags(dirs), FileModifiedDateName, DateTimeOriginalName);
    FirstNamedDropped(AllTags(dirs), FileModifiedDateName, CreatedName);
  }
}

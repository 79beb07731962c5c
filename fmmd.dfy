/**
 * fmmd ("fix music metadata"): renames audio files to "<track>-<title>.<ext>"
 * from the title and track number in their ID3 tag.
 *
 * The tag reader, `Path::exists`, `fs::rename` and the terminal are outside
 * the model: what they answer for a file is an Observation, and what the
 * program prints or asks the filesystem to do is recorded as Effects.
 */
module Fmmd {
  import opened Wrappers
  import opened Decimal
  import opened Paths

  /** The two tag fields the renamer reads; either may be missing. */
  datatype Tag = Tag(title: Option<string>, track: Option<nat>)

  /** The program's error type, one variant per way a file can fail. */
  datatype FmmdError = FileParse | FileRename | NotEnoughMetadata

  /** The text each error displays as. */
  function Message(e: FmmdError): string {
    match e
    case FileParse => "Could not parse the file"
    case FileRename => "Could not rename the file"
    case NotEnoughMetadata => "Could not find enough information in the file to rename it"
  }

  datatype Result<T> = Ok(value: T) | Err(error: FmmdError)

  /** The command line once parsed: the files in order and the two flags. */
  datatype Cli = Cli(files: seq<Path>, dryRun: bool, verbose: bool)

  /** The tag title, absent read as "". */
  function TitleOf(tag: Tag): string {
    tag.title.GetOr("")
  }

  /** The tag track number, absent read as 0. */
  function TrackOf(tag: Tag): nat {
    tag.track.GetOr(0)
  }

  /** The guard of the filename derivation: some title or a non-zero track. */
  predicate EnoughMetadata(tag: Tag) {
    TitleOf(tag) != [] || TrackOf(tag) != 0
  }

  /** The file's path has a directory and an extension to take apart. */
  predicate HasParentAndExtension(file: Path) {
    file.parent.Some? && file.extension.Some?
  }

  /** The track number right-aligned in two places with '0' (`{:0>2}`). */
  function TrackPrefix(track: nat): string {
    PadLeft(NatToString(track), 2, '0')
  }

  /** The new file name, `"{track}-{title}.{extension}"` with the padded track. */
  function NewFileName(track: nat, title: string, extension: string): string {
    TrackPrefix(track) + "-" + title + "." + extension
  }

  /**
   * The new path for `file` from its tag. The directory and extension are taken
   * from `file` only after the metadata guard, so only a file that passes the
   * guard must have both.
   */
  function GetFilename(tag: Tag, file: Path): (r: Result<string>)
    requires EnoughMetadata(tag) ==> HasParentAndExtension(file)
    ensures r.Err? <==> TitleOf(tag) == [] && TrackOf(tag) == 0
    ensures r.Err? ==> r.error == NotEnoughMetadata
  {
    var title := TitleOf(tag);
    var track := TrackOf(tag);
    if title == [] && track == 0 then
      Err(NotEnoughMetadata)
    else
      var parent := file.parent.value;
      var extension := file.extension.value;
      Ok(Join(parent, NewFileName(track, title, extension)))
  }

  /**
   * The padded track: at least two characters, all digits, "0" and the digit
   * below 10, the plain decimal rendering from 10 on, and it reads back as
   * the track.
   */
  lemma TrackPrefixShape(track: nat)
    ensures |TrackPrefix(track)| == if NumDigits(track) < 2 then 2 else NumDigits(track)
    ensures track < 10 ==> TrackPrefix(track) == ['0', DigitChar(track)]
    ensures track >= 10 ==> TrackPrefix(track) == NatToString(track)
    ensures AllDigits(TrackPrefix(track))
    ensures ParseDecimal(TrackPrefix(track)) == track
  {
    NatToStringShape(track);
    ParseNatToString(track);
    if track < 10 {
      assert NatToString(track) == [DigitChar(track)];
      ParseLeadingZero(NatToString(track));
      assert TrackPrefix(track) == ['0'] + NatToString(track);
    }
  }

  /**
   * When the derivation succeeds and the title holds no separator, the new
   * path stays in the same directory, keeps the extension, and is named
   * exactly `"{track}-{title}.{extension}"` with the title verbatim.
   */
  lemma GetFilenameKeepsDirectory(tag: Tag, text: string)
    requires EnoughMetadata(tag) && HasParentAndExtension(ParsePath(text))
    requires '/' !in TitleOf(tag)
    ensures GetFilename(tag, ParsePath(text)).Ok?
    ensures Parent(GetFilename(tag, ParsePath(text)).value) == Parent(text)
    ensures Extension(GetFilename(tag, ParsePath(text)).value) == Extension(text)
    ensures FileName(GetFilename(tag, ParsePath(text)).value)
         == Some(NewFileName(TrackOf(tag), TitleOf(tag), Extension(text).value))
  {
    var parent, extension := Parent(text).value, Extension(text).value;
    assert GetFilename(tag, ParsePath(text))
        == Ok(Join(parent, NewFileName(TrackOf(tag), TitleOf(tag), extension)));
    NewFileNameParts(parent, TrackOf(tag), TitleOf(tag), extension);
  }

  /**
   * The new name joined onto a directory splits back into that directory, the
   * new name and the extension, as long as the title holds no separator.
   */
  lemma NewFileNameParts(parent: string, track: nat, title: string, extension: string)
    requires Trimmed(parent)
    requires '/' !in title && '/' !in extension && '.' !in extension
    ensures Parent(Join(parent, NewFileName(track, title, extension))) == Some(parent)
    ensures Extension(Join(parent, NewFileName(track, title, extension))) == Some(extension)
    ensures FileName(Join(parent, NewFileName(track, title, extension)))
         == Some(NewFileName(track, title, extension))
  {
    TrackPrefixShape(track);
    var prefix := TrackPrefix(track);
    NoSeparatorInDigits(prefix);
    var stem := prefix + "-" + title;
    assert stem[0] == prefix[0];
    var name := stem + "." + extension;
    assert name == NewFileName(track, title, extension);
    assert name[0] == prefix[0] && |name| >= 2;
    ExtensionOfName(parent, stem, extension);
    JoinSplits(parent, name);
  }

  /**
   * The title is not sanitised. For a file in the current directory with a
   * non-empty extension, a title `d + "/"` (with `d` a plain name) makes the
   * new path `"{track}-{d}/.{extension}"`: a file without an extension, in a
   * directory that is not the original one.
   */
  lemma SeparatorInTitleLeavesDirectory(tag: Tag, text: string, d: string)
    requires HasParentAndExtension(ParsePath(text)) && Parent(text) == Some([])
    requires Extension(text).value != []
    requires d != [] && '/' !in d && TitleOf(tag) == d + "/"
    ensures GetFilename(tag, ParsePath(text))
         == Ok(TrackPrefix(TrackOf(tag)) + "-" + d + "/." + Extension(text).value)
    ensures Parent(GetFilename(tag, ParsePath(text)).value) == Some(TrackPrefix(TrackOf(tag)) + "-" + d)
    ensures Parent(GetFilename(tag, ParsePath(text)).value) != Parent(text)
    ensures Extension(GetFilename(tag, ParsePath(text)).value) == None
  {
    var file := ParsePath(text);
    GetFilenameInCurrentDirectory(tag, file);
    SeparatorNameParts(TrackOf(tag), d, Extension(text).value);
  }

  /**
   * The new name for a title `d + "/"` is `"{track}-{d}/.{extension}"`: a
   * hidden file without extension in the directory `"{track}-{d}"`.
   */
  lemma SeparatorNameParts(track: nat, d: string, extension: string)
    requires d != [] && '/' !in d
    requires extension != [] && '/' !in extension && '.' !in extension
    ensures NewFileName(track, d + "/", extension) == TrackPrefix(track) + "-" + d + "/." + extension
    ensures Parent(NewFileName(track, d + "/", extension)) == Some(TrackPrefix(track) + "-" + d)
    ensures Extension(NewFileName(track, d + "/", extension)) == None
  {
    var dir := TrackPrefix(track) + "-" + d;
    SeparatorTitleName(track, d, extension);
    HiddenFileParts(dir, extension);
  }

  /**
   * The new name for a title `d + "/"` is the plain name `"{track}-{d}"`
   * followed by `"/."` and the extension.
   */
  lemma SeparatorTitleName(track: nat, d: string, extension: string)
    requires d != [] && '/' !in d
    ensures var dir := TrackPrefix(track) + "-" + d;
      && NewFileName(track, d + "/", extension) == dir + "/." + extension
      && Trimmed(dir) && dir != [] && '/' !in dir && dir != "." && dir != ".."
  {
    var prefix := TrackPrefix(track);
    TrackPrefixShape(track);
    NoSeparatorInDigits(prefix);
    var dir := prefix + "-" + d;
    assert NewFileName(track, d + "/", extension) == dir + "/." + extension by {
      var p := prefix + "-";
      assert p + (d + "/") == (p + d) + "/";
      assert (p + d) + "/" + "." == (p + d) + "/.";
    }
    assert '/' !in dir by {
      assert dir == prefix + ("-" + d);
    }
    assert dir[0] == prefix[0];
    PlainNameParts(dir);
  }

  /**
   * With an empty extension (a file such as "song."), the same title makes
   * the new path `"{track}-{d}/."`, which std::path reads as the entry
   * `"{track}-{d}"` of the current directory itself.
   */
  lemma SeparatorInTitleEmptyExtension(tag: Tag, text: string, d: string)
    requires HasParentAndExtension(ParsePath(text)) && Parent(text) == Some([])
    requires Extension(text) == Some([])
    requires d != [] && '/' !in d && TitleOf(tag) == d + "/"
    ensures GetFilename(tag, ParsePath(text)) == Ok(TrackPrefix(TrackOf(tag)) + "-" + d + "/.")
    ensures Parent(GetFilename(tag, ParsePath(text)).value) == Some([])
    ensures FileName(GetFilename(tag, ParsePath(text)).value) == Some(TrackPrefix(TrackOf(tag)) + "-" + d)
  {
    GetFilenameInCurrentDirectory(tag, ParsePath(text));
    SeparatorEmptyExtensionParts(TrackOf(tag), d);
  }

  /** The new name for a title `d + "/"` and no extension is `"{track}-{d}/."`. */
  lemma SeparatorEmptyExtensionParts(track: nat, d: string)
    requires d != [] && '/' !in d
    ensures NewFileName(track, d + "/", "") == TrackPrefix(track) + "-" + d + "/."
    ensures Parent(NewFileName(track, d + "/", "")) == Some([])
    ensures FileName(NewFileName(track, d + "/", "")) == Some(TrackPrefix(track) + "-" + d)
  {
    var dir := TrackPrefix(track) + "-" + d;
    SeparatorTitleName(track, d, "");
    assert dir + "/." + "" == dir + "/.";
    PlainNameParts(dir);
    DotComponentSkipped(dir);
  }

  /** In the current directory the new path is the bare new file name. */
  lemma GetFilenameInCurrentDirectory(tag: Tag, file: Path)
    requires EnoughMetadata(tag) && HasParentAndExtension(file) && file.parent == Some([])
    ensures GetFilename(tag, file) == Ok(NewFileName(TrackOf(tag), TitleOf(tag), file.extension.value))
  {
    var track := TrackOf(tag);
    TrackPrefixShape(track);
    var name := NewFileName(track, TitleOf(tag), file.extension.value);
    assert name[0] == TrackPrefix(track)[0] && IsDigit(name[0]);
    assert Join([], name) == name;
  }

  /** Track 5 is written "05", track 123 stays "123". */
  lemma TrackPrefixExamples()
    ensures TrackPrefix(5) == "05"
    ensures TrackPrefix(123) == "123"
  {
    TrackPrefixShape(5);
    assert DigitChar(5) == '5';
    TrackPrefixShape(123);
    assert NatToString(1) == "1";
    assert NatToString(12) == "1" + [DigitChar(2)] == "12";
    assert NatToString(123) == "12" + [DigitChar(3)] == "123";
  }

  /**
   * "music/a.mp3" tagged "Song", track 3, becomes "music/03-Song.mp3"; a tag
   * with no title and track 0 gives no new name.
   */
  lemma GetFilenameExamples()
    ensures var file := ParsePath("music/a.mp3");
      file.parent == Some("music") && file.extension == Some("mp3")
      && GetFilename(Tag(Some("Song"), Some(3)), file) == Ok("music/03-Song.mp3")
    ensures GetFilename(Tag(None, Some(0)), ParsePath("a.mp3")) == Err(NotEnoughMetadata)
  {
    ParsePathExample();
    MusicFileRenamed(ParsePath("music/a.mp3"));
  }

  /** The renaming of "music/a.mp3", once its parts are known. */
  lemma MusicFileRenamed(file: Path)
    requires file == Path("music/a.mp3", Some("music"), Some("mp3"))
    ensures GetFilename(Tag(Some("Song"), Some(3)), file) == Ok("music/03-Song.mp3")
  {
    assert TrackPrefix(3) == "03" by {
      TrackPrefixShape(3);
      assert DigitChar(3) == '3';
    }
    var name := NewFileName(3, "Song", "mp3");
    assert name == "03-Song.mp3";
    assert GetFilename(Tag(Some("Song"), Some(3)), file) == Ok(Join("music", name));
    assert Join("music", name) == "music" + "/" + name == "music/03-Song.mp3";
  }
}

# fmmd — a verified model of the renamer

fmmd ("fix music metadata") is a small command-line tool. It renames each audio
file named on its command line to `"{track}-{title}.{extension}"`, in the file's
own directory unless the title contains '/'. Title and track come from the
file's ID3 tag, and the track is padded to at least two digits. `--dry-run` prints what would happen and renames nothing.
`--verbose` prints each rename before attempting it. A file that does not exist
is skipped without a word. A file whose tag cannot be read, has neither title
nor track, or cannot be renamed gets an error line, and the tool goes on to the
next file. A file with enough metadata but no extension (or no parent) makes
the tool panic (src/main.rs:78-79), and the files after it are not processed.

This project models the tool's one source file in Dafny and proves what it does:

- `paths.dfy` (module `Paths`): the parts of Rust's `std::path` the renamer
  uses, on `/`-separated strings: `Path::parent`, `Path::file_name`,
  `Path::extension` and `PathBuf::join`. A `Path` value is its text together
  with what `parent()` and `extension()` give for it. `ParsePath` builds one
  from its text.
- `decimal.dfy` (module `Decimal`): decimal rendering of a track number, the
  digit parser used to state the round trip, and left padding (`{:0>2}`).
- `fmmd.dfy` (module `Fmmd`): the tag, the error type and its messages, the
  command line, and `get_filename` (`GetFilename`).
- `driver.dfy` (module `Driver`): `rename_file` (`RenameFile`), one turn of the
  loop in `main` (`Step`), and the loop itself (`Run`).
- `wrappers.dfy` (module `Wrappers`): `Option`.

The outside world is made of values:

- What the tag reader, `Path::exists` and `fs::rename` answer for a file is an
  `Observation`: whether the file exists, what its tag reads as, and whether a
  rename would succeed.
- What the program prints or asks of the filesystem is a sequence of `Effect`s:
  a preview line, a rename attempt, or an error report.
- A run is specified as the concatenation, in command-line order, of one turn
  per file (`Execution`). The `Run` method is the loop in `main`, and it is
  proved to produce exactly that.

The unwraps of `parent()` and `extension()` in `get_filename` run only after
the metadata check. So `GetFilename` requires both parts only for a tag that
passes that check, and a run requires it only for such files (`WellFormedRun`).

The comment above `get_filename` (src/main.rs:69) says both a title and a track
number are needed. The code refuses a tag only when both are missing, so one of
the two is enough. The model follows the code.

## Model

| member | source | states |
|---|---|---|
| Fmmd.GetFilename | src/main.rs:70-84 | The derivation fails exactly when the title (absent read as "") is empty and the track (absent read as 0) is 0, and then the error is NotEnoughMetadata. The directory and extension must exist only for a tag that passes this check. |
| Fmmd.TitleOf | src/main.rs:71 | The title, with an absent one read as "". A plain definition, with no contract. |
| Fmmd.TrackOf | src/main.rs:72 | The track number, with an absent one read as 0. A plain definition, with no contract. |
| Fmmd.Message | src/main.rs:27-37 | The three error texts of `FmmdError`. A plain definition, with no contract. |
| Fmmd.TrackPrefix | src/main.rs:80 | `format!("{:0>2}", track)`. Its contract is in Fmmd.TrackPrefixShape. |
| Fmmd.NewFileName | src/main.rs:81 | `format!("{}-{}.{}", track, title, extension)`. Its contract is in Fmmd.NewFileNameParts and Fmmd.GetFilenameKeepsDirectory. |
| Fmmd.TrackPrefixShape | src/main.rs:80 | The padded track is max(2, number of digits) long and all digits. Below 10 it is "0" followed by the digit. From 10 on it is the plain decimal rendering, so 123 stays "123". It parses back to the track. |
| Fmmd.TrackPrefixExamples | src/main.rs:80 | Track 5 is written "05" and track 123 is written "123". |
| Fmmd.GetFilenameKeepsDirectory | src/main.rs:78-81 | For a path parsed from its text, a tag passing the check and a title without '/', the new path has the same parent and the same extension as the file. Its file name is exactly padded track + "-" + title + "." + extension, with the title verbatim. |
| Fmmd.NewFileNameParts | src/main.rs:80-81 | When `Trimmed(parent)` holds (the directory ends in neither a separator nor a "." component; "" and "/" are allowed), the title holds no '/' and the extension holds neither '/' nor '.', the new name joined onto the directory has that directory as parent, the extension as extension and the new name as file name. |
| Fmmd.GetFilenameInCurrentDirectory | src/main.rs:78-81 | When the parent is empty, the new path is the bare new file name: the join adds no separator. |
| Fmmd.SeparatorInTitleLeavesDirectory | src/main.rs:81 | The title is not sanitised. For a file in the current directory with a non-empty extension, a title "d/" gives the path "{track}-d/.{extension}". Its parent is the directory "{track}-d", not the original one, and it has no extension. |
| Fmmd.SeparatorNameParts | src/main.rs:80-81 | For a title "d/" and a non-empty extension, the new name is "{track}-d/.{extension}". Its parent is "{track}-d" and it has no extension. |
| Fmmd.SeparatorInTitleEmptyExtension | src/main.rs:81 | For a file in the current directory with an empty extension (such as "song."), a title "d/" gives the path "{track}-d/.". Its parent is the current directory and its file name is "{track}-d": the trailing "." component is skipped. |
| Fmmd.SeparatorEmptyExtensionParts | src/main.rs:80-81 | For a title "d/" and an empty extension, the new name is "{track}-d/.", whose parent is "" and whose file name is "{track}-d". |
| Fmmd.SeparatorTitleName | src/main.rs:80 | For a title "d/", the new name is the plain component "{track}-d" followed by "/." and the extension. |
| Fmmd.GetFilenameExamples | src/main.rs:70-84 | The path parsed from "music/a.mp3" has parent "music" and extension "mp3", and with title "Song" and track 3 it becomes "music/03-Song.mp3". A tag with no title and track 0 gives NotEnoughMetadata for "a.mp3". |
| Fmmd.MusicFileRenamed | src/main.rs:78-81 | A file with parent "music" and extension "mp3", title "Song" and track 3 gets the path "music/03-Song.mp3". |
| Paths.Parent | src/main.rs:78 | `Path::parent` is absent exactly when the trimmed path is "" or "/", and otherwise has no trailing separator and no trailing "." component (a lone "/" or "." aside, as for "/a" and "./a"). |
| Paths.Extension | src/main.rs:79 | `Path::extension` gives a text holding neither '.' nor '/'. |
| Paths.FileName | src/main.rs:81 | `Path::file_name` gives a non-empty component without a separator, and never "." or "..". |
| Paths.TrimEnd | src/main.rs:78 | The result is a prefix of the path that ends in neither a separator nor a "." component (a lone "/" or "." aside), and is empty only for the empty path. It removes only '/' and '.' characters, and leaves a path that already ends in a kept component unchanged. |
| Paths.TrimEndRemovesDotComponents | src/main.rs:78 | Every '.' that TrimEnd removes directly follows a '/', so only separators and whole "." components go, never the '.' of a name such as "ab.". |
| Paths.TrimEndUnique | src/main.rs:78 | These properties determine the result: any prefix of the path that has them is TrimEnd of the path. |
| Paths.TrimEndSeparator | src/main.rs:78 | One separator after a path ending in neither a separator nor a "." component is dropped again. |
| Paths.TrimEndDot | src/main.rs:78 | A "/." after such a path is dropped again. |
| Paths.SameTrimSameParts | src/main.rs:78-79 | Proof step, true by the definitions here: Parent, FileName and Extension read a path only through TrimEnd, so paths with the same trimmed form agree on all three. |
| Paths.SameTrimSameFileName | src/main.rs:78 | Proof step, true by definition: paths with the same trimmed form agree on FileName. |
| Paths.SameTrimSameParent | src/main.rs:78 | Proof step, true by definition: paths with the same trimmed form agree on Parent. |
| Paths.DotComponentSkipped | src/main.rs:78 | "dir/." trims to "dir" and has the parent and the file name of "dir". |
| Paths.PlainNameParts | src/main.rs:78 | A plain name (no '/', not "." or "..") has parent "" and is its own file name. |
| Paths.TrimmedAfterSeparator | src/main.rs:81 | "dir/" followed by a plain name (no '/', not ".") ends in a kept component. |
| Paths.SplitAtLastSeparator | src/main.rs:78-81 | A trimmed path of at least two characters whose last separator is at k has parent TrimEnd of the text up to and including k, and, unless the rest is "..", the rest as its file name. |
| Paths.SplitAfterSeparator | src/main.rs:81 | "dir/" followed by a plain name has parent "dir" trimmed and that name as its file name. |
| Paths.Join | src/main.rs:81 | `Path::join` on Unix. Its contract is in Paths.JoinSplits and Fmmd.GetFilenameInCurrentDirectory. |
| Paths.JoinSplits | src/main.rs:81 | Joining a plain name (no '/', not "." or "..") onto a base ending in neither a separator nor a "." component gives a path whose parent is the base and whose file name is the name. |
| Paths.ExtensionOfName | src/main.rs:79-81 | When `Trimmed(base)` holds, the stem is non-empty and does not start with '.', neither the stem nor ext holds a '/', and ext holds no '.', joining "stem.ext" onto the base gives a path whose extension is ext. |
| Paths.HiddenFileParts | src/main.rs:81 | "dir/.ext" has parent "dir" and no extension: a leading dot does not start an extension. |
| Paths.TrailingDotFileName | src/main.rs:81 | "foo.txt/." has file name "foo.txt". |
| Paths.LoneDotHasNoFileName | src/main.rs:81 | A lone "." has no file name. |
| Paths.TrailingDotParent | src/main.rs:78 | "a/." has parent "". |
| Paths.TrailingDotExtension | src/main.rs:79 | "x.mp3/." has extension "mp3". |
| Paths.ParsePathExample | src/main.rs:78-79 | "music/a.mp3" parses to parent "music" and extension "mp3". |
| Paths.ParentExample | src/main.rs:78 | "music/a.mp3" has parent "music". |
| Paths.ExtensionExample | src/main.rs:79 | "music/a.mp3" has extension "mp3". |
| Decimal.NumDigitsBounds | src/main.rs:80 | NumDigits is the number of decimal digits: it is at least 1, 10^(d-1) <= n for d digits from two digits on, and n < 10^d. |
| Decimal.NatToString | src/main.rs:80 | The decimal rendering of a track number (`format!` of a `u32`). Its contract is in Decimal.NatToStringShape and Decimal.ParseNatToString. |
| Decimal.NatToStringShape | src/main.rs:80 | The decimal rendering of a number has as many characters as the number has digits, all of them digits, with no leading zero from 10 on. |
| Decimal.ParseNatToString | src/main.rs:80 | Reading the decimal rendering back gives the number. |
| Decimal.PadLeft | src/main.rs:80 | Right-aligning with a fill character keeps the text as a suffix and fills only in front. The result is as long as the width, or the text if that is longer. |
| Driver.Text | src/main.rs:49-53 | The line each effect prints: "{original} -> {renamed}" for a preview, "{message}: \"{file}\"" for an error report (src/main.rs:92), nothing for a rename. A plain definition, with no contract. |
| Driver.RenameFile | src/main.rs:40-65 | `rename_file`. Its contract is in Driver.RenameFileEffects. |
| Driver.RenameTo | src/main.rs:48-64 | The part of `rename_file` after the new path is derived. Its contract is in Driver.RenameToEffects. |
| Driver.Step | src/main.rs:90-93 | One turn of the loop in `main`. Its contract is in Driver.StepEffects and Driver.StepOrder. |
| Driver.RenameToEffects | src/main.rs:48-64 | Once the new path is known, the preview is printed exactly under --dry-run or --verbose and comes first. --dry-run returns Ok without a rename. Without it, exactly one rename from the file to its new path is attempted, its failure is FileRename, and nothing is reported. |
| Driver.RenameFileEffects | src/main.rs:40-65 | An unreadable tag gives FileParse and NotEnoughMetadata passes through, neither with a print or a rename. Otherwise the preview is printed exactly under --dry-run or --verbose. --dry-run returns Ok without a rename. Without it, exactly one rename from the file to its new path is attempted, and its failure is FileRename. A preview always precedes the rename. |
| Driver.StepEffects | src/main.rs:89-94 | A missing file has no effect. A present file's turn previews and renames as `rename_file` does, and reports its error once exactly when `rename_file` fails. |
| Driver.StepOrder | src/main.rs:90-93 | A turn is its preview, then its rename attempt, then its error report, each present or absent as above. |
| Driver.Run | src/main.rs:89-95 | The loop produces exactly the per-file turns, one after another in command-line order. |
| Driver.EveryFileHandled | src/main.rs:89-95 | Each file's full turn appears in the run right after the turns of the files before it, whatever those ended with. An error never stops the loop. |
| Driver.RunPreviews | src/main.rs:48-54 | A run previews, in input order, each present file that gets a new path, and does so exactly when --dry-run or --verbose is given. |
| Driver.RunRenameAttempts | src/main.rs:56-62 | A run attempts, in input order, one rename per present file that gets a new path, and none under --dry-run. |
| Driver.RunErrorReports | src/main.rs:90-93 | A run reports, in input order, the error of each failing file once, and nothing for files that are missing or come through. |
| Driver.DryRunNeverRenames | src/main.rs:56-58 | Under --dry-run no effect of the whole run is a rename attempt. |
| Driver.ConcatPrefix | src/main.rs:89-95 | The effects of the first turns are a prefix of the effects of all turns: later files never undo earlier output. |

## Left out

- Command-line parsing by clap (src/main.rs:9-25, 87) is not modelled: a `Cli`
  value is given with the files in order and the two flags.
- The ID3 reader is an input. A tag is its title and track, and a read either
  gives one or fails. The `id3::Error` and `std::io::Error` payloads of
  FileParse and FileRename are not kept.
- `Path::exists` and `fs::rename` are inputs, one `Observation` per file,
  fixed before the run. A rename is recorded as an effect, and the filesystem
  it changes is not modelled. So a later file is not affected by an earlier
  rename, and an existing target being overwritten is not modelled.
- Printing is a sequence of effects. Colours (owo_colors) and the choice of
  stdout or stderr are not modelled.
- The `to_str().unwrap()` calls cannot fail here, because paths and titles are
  strings of characters; invalid UTF-8 is not modelled.
- Fmmd.GetFilename: the panics of `parent().unwrap()` and `extension().unwrap()`
  are a precondition, not an abort of the run. `WellFormedRun` requires every
  present file whose tag passes the metadata check to have both parts.
- The path model knows only '/' as a separator and has no Windows prefixes.
  Like std::path, it skips trailing "/" and "." components and keeps the
  text before the last component as it is written, as `as_path` gives it
  back ("a/./b/c" has parent "a/./b"). The component iterator itself
  (`Path::components`) is not modelled.
- A `Path` carries its parent and extension. Only the lemmas that take the
  path's text (for example `Fmmd.GetFilenameKeepsDirectory`) tie them to the
  text through `ParsePath`. The driver works for any `Path` value.
- The track is a `u32` in the source and a `nat` here. Padding does not depend
  on the difference.
- The exit status (always success) is not modelled.

/**
 * The per-file procedure (`rename_file`) and the driver loop over the command
 * line's files (`main`), with the outside world reduced to what it answers.
 */
module Driver {
  import opened Wrappers
  import opened Fmmd
  import opened Paths

  /** What fmmd prints or asks of the filesystem, in the order it does so. */
  datatype Effect =
    | Preview(original: string, renamed: string)     // "<original> -> <renamed>" on stdout
    | RenameAttempt(source: string, target: string)  // one call of fs::rename
    | ErrorReport(error: FmmdError, file: string)  // "<message>: \"<file>\"" on stderr

  /** The line an effect writes to the terminal (colours aside); a rename writes none. */
  function Text(e: Effect): string {
    match e
    case Preview(original, renamed) => original + " -> " + renamed
    case RenameAttempt(_, _) => ""
    case ErrorReport(error, file) => Message(error) + ": \"" + file + "\""
  }

  datatype Kind = Previewed | Renamed | Reported

  function KindOf(e: Effect): Kind {
    match e
    case Preview(_, _) => Previewed
    case RenameAttempt(_, _) => Renamed
    case ErrorReport(_, _) => Reported
  }

  /** The effects of one kind in `log`, in their order. */
  function OfKind(log: seq<Effect>, k: Kind): seq<Effect> {
    if log == [] then []
    else
      var last := log[|log| - 1];
      OfKind(log[..|log| - 1], k) + (if KindOf(last) == k then [last] else [])
  }

  lemma {:induction false} OfKindAppend(a: seq<Effect>, b: seq<Effect>, k: Kind)
    ensures OfKind(a + b, k) == OfKind(a, k) + OfKind(b, k)
  {
    if b == [] {
      assert a + b == a;
    } else {
      assert (a + b)[..|a + b| - 1] == a + b[..|b| - 1];
      OfKindAppend(a, b[..|b| - 1], k);
    }
  }

  /** What reading the tag of a file gives: a tag, or an id3 error. */
  datatype TagRead = Parsed(tag: Tag) | Unparsable

  /**
   * What the world answers for one file when the loop reaches it: whether it
   * exists, what its tag reads as, and whether renaming it would succeed.
   */
  datatype Observation = Observation(present: bool, read: TagRead, renameSucceeds: bool)

  /** The result of `rename_file` and the effects it had on the way. */
  datatype Outcome = Outcome(result: Result<()>, effects: seq<Effect>)

  /** The unwraps of `get_filename` succeed for this file and tag read. */
  predicate Unwraps(file: Path, read: TagRead) {
    read.Parsed? && EnoughMetadata(read.tag) ==> HasParentAndExtension(file)
  }

  /** The new path, or the error that stops `rename_file` before it prints anything. */
  function NewPath(file: Path, read: TagRead): Result<string>
    requires Unwraps(file, read)
  {
    match read
    case Unparsable => Err(FileParse)
    case Parsed(tag) => GetFilename(tag, file)
  }

  /**
   * Reads the tag (FileParse if it cannot), derives the new path (passing
   * NotEnoughMetadata on), prints the preview under --dry-run or --verbose,
   * stops there under --dry-run, and otherwise attempts the rename once.
   */
  function RenameFile(file: Path, cli: Cli, read: TagRead, renameSucceeds: bool): Outcome
    requires Unwraps(file, read)
  {
    match NewPath(file, read)
    case Err(e) => Outcome(Err(e), [])
    case Ok(newFile) => RenameTo(file, newFile, cli, renameSucceeds)
  }

  /** The rest of `rename_file` once the new path is known. */
  function RenameTo(file: Path, newFile: string, cli: Cli, renameSucceeds: bool): Outcome {
    var preview := if cli.dryRun || cli.verbose then [Preview(file.text, newFile)] else [];
    if cli.dryRun then Outcome(Ok(()), preview)
    else
      var result := if renameSucceeds then Ok(()) else Err(FileRename);
      Outcome(result, preview + [RenameAttempt(file.text, newFile)])
  }

  /**
   * Once the new path is known, the preview comes first and only under
   * --dry-run or --verbose; --dry-run succeeds without a rename; without it
   * exactly one rename from the file to its new path is attempted and its
   * failure is FileRename. No error is reported here.
   */
  lemma RenameToEffects(file: Path, newFile: string, cli: Cli, renameSucceeds: bool)
    ensures var o := RenameTo(file, newFile, cli, renameSucceeds);
      && OfKind(o.effects, Previewed)
         == (if cli.dryRun || cli.verbose then [Preview(file.text, newFile)] else [])
      && (cli.dryRun ==> OfKind(o.effects, Renamed) == [] && o.result == Ok(()))
      && (!cli.dryRun ==>
            OfKind(o.effects, Renamed) == [RenameAttempt(file.text, newFile)] &&
            o.result == if renameSucceeds then Ok(()) else Err(FileRename))
      && OfKind(o.effects, Reported) == []
      && o.effects == OfKind(o.effects, Previewed) + OfKind(o.effects, Renamed)
  {
    var preview := if cli.dryRun || cli.verbose then [Preview(file.text, newFile)] else [];
    var rename := [RenameAttempt(file.text, newFile)];
    OfKindAppend(preview, rename, Previewed);
    OfKindAppend(preview, rename, Renamed);
    OfKindAppend(preview, rename, Reported);
  }

  /**
   * What RenameFile does, by case: a parse failure and missing metadata end it
   * with no effect; otherwise the preview comes first and only under --dry-run
   * or --verbose; --dry-run succeeds without a rename; without it exactly one
   * rename from the file to its new path is attempted and its failure is
   * FileRename. RenameFile itself never reports an error.
   */
  lemma RenameFileEffects(file: Path, cli: Cli, read: TagRead, renameSucceeds: bool)
    requires Unwraps(file, read)
    ensures var o := RenameFile(file, cli, read, renameSucceeds);
      && (read.Unparsable? ==> o == Outcome(Err(FileParse), []))
      && (read.Parsed? && !EnoughMetadata(read.tag) ==> o == Outcome(Err(NotEnoughMetadata), []))
      && (NewPath(file, read).Err? ==> o == Outcome(Err(NewPath(file, read).error), []))
      && OfKind(o.effects, Previewed)
         == (if NewPath(file, read).Ok? && (cli.dryRun || cli.verbose)
             then [Preview(file.text, NewPath(file, read).value)] else [])
      && (cli.dryRun ==> OfKind(o.effects, Renamed) == [])
      && (cli.dryRun && NewPath(file, read).Ok? ==> o.result == Ok(()))
      && (!cli.dryRun && NewPath(file, read).Ok? ==>
            OfKind(o.effects, Renamed) == [RenameAttempt(file.text, NewPath(file, read).value)] &&
            o.result == if renameSucceeds then Ok(()) else Err(FileRename))
      && OfKind(o.effects, Reported) == []
      && o.effects == OfKind(o.effects, Previewed) + OfKind(o.effects, Renamed)
  {
    if NewPath(file, read).Ok? {
      RenameToEffects(file, NewPath(file, read).value, cli, renameSucceeds);
    }
  }

  /** The error a file ends with: none when it is missing or renamed. */
  function Failure(cli: Cli, file: Path, obs: Observation): Option<FmmdError>
    requires obs.present ==> Unwraps(file, obs.read)
  {
    if !obs.present then None
    else
      var o := RenameFile(file, cli, obs.read, obs.renameSucceeds);
      if o.result.Err? then Some(o.result.error) else None
  }

  /** The file is present and a new path can be derived for it. */
  predicate Derivable(file: Path, obs: Observation)
    requires obs.present ==> Unwraps(file, obs.read)
  {
    obs.present && NewPath(file, obs.read).Ok?
  }

  /**
   * One turn of the driver loop: a missing file is skipped, a present one goes
   * through RenameFile and, if that fails, its error is reported once.
   */
  function Step(cli: Cli, file: Path, obs: Observation): seq<Effect>
    requires obs.present ==> Unwraps(file, obs.read)
  {
    if !obs.present then []
    else
      var o := RenameFile(file, cli, obs.read, obs.renameSucceeds);
      match o.result
      case Ok(_) => o.effects
      case Err(error) => o.effects + [ErrorReport(error, file.text)]
  }

  /** The preview a file's turn prints: one when it gets a new path under --dry-run or --verbose. */
  function PreviewOf(cli: Cli, file: Path, obs: Observation): seq<Effect>
    requires obs.present ==> Unwraps(file, obs.read)
  {
    if Derivable(file, obs) && (cli.dryRun || cli.verbose)
    then [Preview(file.text, NewPath(file, obs.read).value)] else []
  }

  /** The rename a file's turn attempts: one when it gets a new path without --dry-run. */
  function AttemptOf(cli: Cli, file: Path, obs: Observation): seq<Effect>
    requires obs.present ==> Unwraps(file, obs.read)
  {
    if Derivable(file, obs) && !cli.dryRun
    then [RenameAttempt(file.text, NewPath(file, obs.read).value)] else []
  }

  /** The report a file's turn prints: one when it fails. */
  function ReportOf(cli: Cli, file: Path, obs: Observation): seq<Effect>
    requires obs.present ==> Unwraps(file, obs.read)
  {
    match Failure(cli, file, obs)
    case Some(error) => [ErrorReport(error, file.text)]
    case None => []
  }

  /**
   * A turn previews and renames as RenameFile does, says nothing for a missing
   * file, and reports the error of a failing file once.
   */
  lemma StepEffects(cli: Cli, file: Path, obs: Observation)
    requires obs.present ==> Unwraps(file, obs.read)
    ensures !obs.present ==> Step(cli, file, obs) == []
    ensures OfKind(Step(cli, file, obs), Reported) == ReportOf(cli, file, obs)
    ensures OfKind(Step(cli, file, obs), Previewed) == PreviewOf(cli, file, obs)
    ensures OfKind(Step(cli, file, obs), Renamed) == AttemptOf(cli, file, obs)
  {
    StepOrder(cli, file, obs);
    var preview, attempt, report := PreviewOf(cli, file, obs), AttemptOf(cli, file, obs), ReportOf(cli, file, obs);
    OfKindSplits(preview, attempt, report, Previewed);
    OfKindSplits(preview, attempt, report, Renamed);
    OfKindSplits(preview, attempt, report, Reported);
  }

  /** The effects of one kind in at most one effect. */
  lemma OfKindAtMostOne(log: seq<Effect>, k: Kind)
    requires |log| <= 1
    ensures OfKind(log, k) == if log != [] && KindOf(log[0]) == k then log else []
  {
    if log != [] {
      assert log[..0] == [];
    }
  }

  /** A preview, a rename attempt and a report, each present or not, sort back into their kinds. */
  lemma OfKindSplits(preview: seq<Effect>, attempt: seq<Effect>, report: seq<Effect>, k: Kind)
    requires |preview| <= 1 && (preview != [] ==> preview[0].Preview?)
    requires |attempt| <= 1 && (attempt != [] ==> attempt[0].RenameAttempt?)
    requires |report| <= 1 && (report != [] ==> report[0].ErrorReport?)
    ensures OfKind(preview + attempt + report, k)
         == match k
            case Previewed => preview
            case Renamed => attempt
            case Reported => report
  {
    OfKindAppend(preview + attempt, report, k);
    OfKindAppend(preview, attempt, k);
    OfKindAtMostOne(preview, k);
    OfKindAtMostOne(attempt, k);
    OfKindAtMostOne(report, k);
    assert OfKind(preview + attempt + report, k)
        == OfKind(preview, k) + OfKind(attempt, k) + OfKind(report, k);
    match k
    case Previewed =>
      assert OfKind(attempt, k) == [] && OfKind(report, k) == [];
    case Renamed =>
      assert OfKind(preview, k) == [] && OfKind(report, k) == [];
    case Reported =>
      assert OfKind(preview, k) == [] && OfKind(attempt, k) == [];
  }

  /** A turn is its preview, then its rename attempt, then its error report. */
  lemma StepOrder(cli: Cli, file: Path, obs: Observation)
    requires obs.present ==> Unwraps(file, obs.read)
    ensures Step(cli, file, obs)
         == PreviewOf(cli, file, obs) + AttemptOf(cli, file, obs) + ReportOf(cli, file, obs)
  {
    if obs.present {
      var preview, attempt, report := PreviewOf(cli, file, obs), AttemptOf(cli, file, obs), ReportOf(cli, file, obs);
      match NewPath(file, obs.read)
      case Err(e) =>
        assert Step(cli, file, obs) == [ErrorReport(e, file.text)];
      case Ok(newFile) =>
        if cli.dryRun {
          assert Step(cli, file, obs) == preview;
        } else {
          assert Step(cli, file, obs) == preview + attempt + report;
        }
    }
  }

  /** The world has one observation per file, and no unwrap fails. */
  predicate WellFormedRun(cli: Cli, world: seq<Observation>) {
    |world| == |cli.files| &&
    forall i :: 0 <= i < |world| && world[i].present ==> Unwraps(cli.files[i], world[i].read)
  }

  /** The turns one after the other. */
  function Concat(turns: seq<seq<Effect>>): seq<Effect> {
    if turns == [] then [] else Concat(turns[..|turns| - 1]) + turns[|turns| - 1]
  }

  /** Adding a turn appends its effects. */
  lemma ConcatSnoc(turns: seq<seq<Effect>>, i: nat)
    requires i < |turns|
    ensures Concat(turns[..i + 1]) == Concat(turns[..i]) + turns[i]
  {
    assert turns[..i + 1][..i] == turns[..i];
  }

  /** What the first turns did is never undone by the later ones. */
  lemma {:induction false} ConcatPrefix(turns: seq<seq<Effect>>, i: nat)
    requires i <= |turns|
    ensures Concat(turns[..i]) <= Concat(turns)
    decreases |turns|
  {
    if i < |turns| {
      var init := turns[..|turns| - 1];
      assert init[..i] == turns[..i];
      ConcatPrefix(init, i);
      assert turns[..|turns|] == turns;
    } else {
      assert turns[..i] == turns;
    }
  }

  /** The effects of one kind in the turns are those of each turn, in order. */
  lemma {:induction false} OfKindConcat(turns: seq<seq<Effect>>, k: Kind)
    ensures OfKind(Concat(turns), k)
         == Concat(seq(|turns|, j requires 0 <= j < |turns| => OfKind(turns[j], k)))
  {
    var kinds := seq(|turns|, j requires 0 <= j < |turns| => OfKind(turns[j], k));
    if turns != [] {
      var init := turns[..|turns| - 1];
      OfKindConcat(init, k);
      OfKindAppend(Concat(init), turns[|turns| - 1], k);
      assert kinds[..|kinds| - 1] == seq(|init|, j requires 0 <= j < |init| => OfKind(init[j], k));
    }
  }

  /** A turn ended by the driver loop, for each file in the order given. */
  function Turns(cli: Cli, world: seq<Observation>): (turns: seq<seq<Effect>>)
    requires WellFormedRun(cli, world)
    ensures |turns| == |cli.files|
  {
    seq(|cli.files|, i requires 0 <= i < |cli.files| => Step(cli, cli.files[i], world[i]))
  }

  /** The effects of a whole run. */
  function Execution(cli: Cli, world: seq<Observation>): seq<Effect>
    requires WellFormedRun(cli, world)
  {
    Concat(Turns(cli, world))
  }

  /**
   * The loop in `main`: it goes through the files in order, skips the missing
   * ones, and reports the error of each failing one without stopping.
   */
  method Run(cli: Cli, world: seq<Observation>) returns (log: seq<Effect>)
    requires WellFormedRun(cli, world)
    ensures log == Execution(cli, world)
  {
    ghost var turns := Turns(cli, world);
    log := [];
    var i := 0;
    while i < |cli.files|
      invariant 0 <= i <= |cli.files|
      invariant log == Concat(turns[..i])
    {
      var file, obs := cli.files[i], world[i];
      ConcatSnoc(turns, i);
      assert turns[i] == Step(cli, file, obs);
      if obs.present {
        var outcome := RenameFile(file, cli, obs.read, obs.renameSucceeds);
        if outcome.result.Err? {
          var report := [ErrorReport(outcome.result.error, file.text)];
          log := log + (outcome.effects + report);
        } else {
          log := log + outcome.effects;
        }
      }
      i := i + 1;
    }
    assert turns[..i] == turns;
  }

  /**
   * Every file gets its full turn, right after the turns of the files before
   * it, whatever those earlier files ended with.
   */
  lemma EveryFileHandled(cli: Cli, world: seq<Observation>, i: nat)
    requires WellFormedRun(cli, world) && i < |cli.files|
    ensures Concat(Turns(cli, world)[..i]) + Step(cli, cli.files[i], world[i]) <= Execution(cli, world)
  {
    var turns := Turns(cli, world);
    ConcatSnoc(turns, i);
    ConcatPrefix(turns, i + 1);
  }

  /**
   * A run previews, in input order, each present file that gets a new path,
   * and that exactly when --dry-run or --verbose is given.
   */
  lemma RunPreviews(cli: Cli, world: seq<Observation>)
    requires WellFormedRun(cli, world)
    ensures OfKind(Execution(cli, world), Previewed)
         == Concat(seq(|cli.files|, j requires 0 <= j < |cli.files| => PreviewOf(cli, cli.files[j], world[j])))
  {
    var turns := Turns(cli, world);
    var previews := seq(|cli.files|, j requires 0 <= j < |cli.files| => PreviewOf(cli, cli.files[j], world[j]));
    var kinds := seq(|turns|, j requires 0 <= j < |turns| => OfKind(turns[j], Previewed));
    OfKindConcat(turns, Previewed);
    forall j | 0 <= j < |turns|
      ensures kinds[j] == previews[j]
    {
      StepEffects(cli, cli.files[j], world[j]);
    }
    assert kinds == previews;
  }

  /**
   * A run attempts, in input order, one rename per present file that gets a
   * new path, unless --dry-run is given.
   */
  lemma RunRenameAttempts(cli: Cli, world: seq<Observation>)
    requires WellFormedRun(cli, world)
    ensures OfKind(Execution(cli, world), Renamed)
         == Concat(seq(|cli.files|, j requires 0 <= j < |cli.files| => AttemptOf(cli, cli.files[j], world[j])))
  {
    var turns := Turns(cli, world);
    var attempts := seq(|cli.files|, j requires 0 <= j < |cli.files| => AttemptOf(cli, cli.files[j], world[j]));
    var kinds := seq(|turns|, j requires 0 <= j < |turns| => OfKind(turns[j], Renamed));
    OfKindConcat(turns, Renamed);
    forall j | 0 <= j < |turns|
      ensures kinds[j] == attempts[j]
    {
      StepEffects(cli, cli.files[j], world[j]);
    }
    assert kinds == attempts;
  }

  /**
   * A run reports, in input order, the error of each failing file once, and
   * nothing for the files that are missing or come through.
   */
  lemma RunErrorReports(cli: Cli, world: seq<Observation>)
    requires WellFormedRun(cli, world)
    ensures OfKind(Execution(cli, world), Reported)
         == Concat(seq(|cli.files|, j requires 0 <= j < |cli.files| => ReportOf(cli, cli.files[j], world[j])))
  {
    var turns := Turns(cli, world);
    var reports := seq(|cli.files|, j requires 0 <= j < |cli.files| => ReportOf(cli, cli.files[j], world[j]));
    var kinds := seq(|turns|, j requires 0 <= j < |turns| => OfKind(turns[j], Reported));
    OfKindConcat(turns, Reported);
    forall j | 0 <= j < |turns|
      ensures kinds[j] == reports[j]
    {
      StepEffects(cli, cli.files[j], world[j]);
    }
    assert kinds == reports;
  }

  /** Turns that have no effects add up to none. */
  lemma {:induction false} ConcatOfEmpty(turns: seq<seq<Effect>>)
    requires forall j :: 0 <= j < |turns| ==> turns[j] == []
    ensures Concat(turns) == []
  {
    if turns != [] {
      ConcatOfEmpty(turns[..|turns| - 1]);
    }
  }

  /** An effect is among the effects of its own kind. */
  lemma {:induction false} OfKindMember(log: seq<Effect>, e: Effect)
    requires e in log
    ensures e in OfKind(log, KindOf(e))
  {
    if log[|log| - 1] != e {
      assert e in log[..|log| - 1] by {
        assert log == log[..|log| - 1] + [log[|log| - 1]];
      }
      OfKindMember(log[..|log| - 1], e);
    }
  }

  /** Under --dry-run the whole run never asks the filesystem to rename. */
  lemma DryRunNeverRenames(cli: Cli, world: seq<Observation>)
    requires WellFormedRun(cli, world) && cli.dryRun
    ensures forall e :: e in Execution(cli, world) ==> !e.RenameAttempt?
  {
    var log := Execution(cli, world);
    RunRenameAttempts(cli, world);
    ConcatOfEmpty(seq(|cli.files|, j requires 0 <= j < |cli.files| => AttemptOf(cli, cli.files[j], world[j])));
    forall e | e in log
      ensures !e.RenameAttempt?
    {
      if e.RenameAttempt? {
        OfKindMember(log, e);
      }
    }
  }
}

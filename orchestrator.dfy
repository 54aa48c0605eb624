/**
 * The top-level driver: runs the word-list, grammar, illustration, overlay
 * and caption scripts one after another as child processes and stops the
 * whole run with status 1 at the first one that fails.
 *
 * Child processes and the file system are inputs: `status` gives the exit
 * status a command would end with, and `Disk` says which paths exist.
 */
module Orchestrator {
  import opened Wrappers
  import opened Text

  /** The five scripts the driver can start. */
  datatype Stage = WordList | GrammarCheck | Illustrate | Overlay | Caption

  /** The command-line flags the driver passes. */
  datatype Flag = TopicFlag | CountFlag | OutputFlag | WordsJsonFlag | AspectFlag | InputDirFlag | OutputDirFlag | FontSizeFlag

  function FlagText(f: Flag): string {
    match f
    case TopicFlag => "--topic"
    case CountFlag => "--count"
    case OutputFlag => "--output"
    case WordsJsonFlag => "--words-json"
    case AspectFlag => "--aspect"
    case InputDirFlag => "--input-dir"
    case OutputDirFlag => "--output-dir"
    case FontSizeFlag => "--font-size"
  }

  /** A progress label "Step n/total". */
  datatype Label = Step(n: nat, total: nat)

  function LabelText(l: Label): string {
    "Step " + IntToString(l.n) + "/" + IntToString(l.total)
  }

  /** One child command: the stage, its flag-value pairs in order, and its progress label. */
  datatype Command = Command(stage: Stage, options: seq<(Flag, string)>, step: Label)

  /** The parsed command line; `DefaultOptions` gives argparse's defaults. */
  datatype Options = Options(topic: string, count: int, fontSize: int, textOnly: bool)

  function DefaultOptions(topic: string): (o: Options)
    ensures o.topic == topic && o.count == 10 && o.fontSize == 48 && !o.textOnly
  {
    Options(topic, 10, 48, false)
  }

  /** The exit status the command would end with. */
  type Status = Command -> int

  /** The paths that exist, and the names of the files in the illustrations folder. */
  datatype Disk = Disk(existing: set<string>, illustrationFiles: seq<string>)

  const IllustrationsDir: string := "illustrations"
  const OutputDir: string := "illustrations_with_text"

  /** The words file every stage shares. */
  function WordsJson(topic: string): string {
    "scripts/words_" + topic + ".json"
  }

  function CaptionFile(topic: string): string {
    "scripts/caption_" + topic + ".txt"
  }

  /** The script each stage runs. */
  function Script(stage: Stage): string {
    match stage
    case WordList => "generate_word_list.py"
    case GrammarCheck => "verify_grammar.py"
    case Illustrate => "generate_illustrations.py"
    case Overlay => "add_text_to_illustrations.py"
    case Caption => "generate_caption.py"
  }

  // ---------------------------------------------------------------- the commands

  function WordsCommand(o: Options): Command {
    Command(WordList, [(TopicFlag, o.topic), (CountFlag, IntToString(o.count)), (OutputFlag, WordsJson(o.topic))], Step(1, 4))
  }

  function GrammarCommand(o: Options): Command {
    Command(GrammarCheck, [(WordsJsonFlag, WordsJson(o.topic))], Step(2, 4))
  }

  function IllustrationsCommand(o: Options): Command {
    Command(Illustrate, [(WordsJsonFlag, WordsJson(o.topic)), (TopicFlag, o.topic), (AspectFlag, Portrait)], Step(3, 4))
  }

  /** The aspect argument the illustrations are always made with. */
  const Portrait: string := "9:16"

  /** The overlay stage, the only one text-only mode runs, and then labelled as the only step. */
  function OverlayCommand(o: Options): Command {
    Command(Overlay,
            [(InputDirFlag, IllustrationsDir), (WordsJsonFlag, WordsJson(o.topic)),
             (OutputDirFlag, OutputDir), (FontSizeFlag, IntToString(o.fontSize))],
            if o.textOnly then Step(1, 1) else Step(4, 4))
  }

  /** The caption stage: labelled step 5 of 5 although the others count to 4. */
  function CaptionCommand(o: Options): Command {
    Command(Caption, [(TopicFlag, o.topic), (OutputFlag, CaptionFile(o.topic))], Step(5, 5))
  }

  /** The commands in the order `main` runs them. */
  function Plan(o: Options): seq<Command> {
    if o.textOnly then [OverlayCommand(o)]
    else [WordsCommand(o), GrammarCommand(o), IllustrationsCommand(o), OverlayCommand(o), CaptionCommand(o)]
  }

  /** The argument vector: the interpreter, the script, then each flag followed by its value. */
  function Argv(interpreter: string, c: Command): seq<string> {
    [interpreter, Script(c.stage)] + Flatten(c.options)
  }

  function Flatten(pairs: seq<(Flag, string)>): seq<string> {
    if pairs == [] then [] else [FlagText(pairs[0].0), pairs[0].1] + Flatten(pairs[1..])
  }

  /** Each flag sits at an even offset of the flattened pairs, its value right after it. */
  lemma {:induction false} FlattenLayout(pairs: seq<(Flag, string)>)
    ensures |Flatten(pairs)| == 2 * |pairs|
    ensures forall i :: 0 <= i < |pairs| ==>
      Flatten(pairs)[2 * i] == FlagText(pairs[i].0) && Flatten(pairs)[2 * i + 1] == pairs[i].1
  {
    if pairs != [] {
      var rest := Flatten(pairs[1..]);
      FlattenLayout(pairs[1..]);
      forall i | 1 <= i < |pairs|
        ensures Flatten(pairs)[2 * i] == FlagText(pairs[i].0) && Flatten(pairs)[2 * i + 1] == pairs[i].1
      {
        assert Flatten(pairs)[2 * i] == rest[2 * (i - 1)];
        assert Flatten(pairs)[2 * i + 1] == rest[2 * (i - 1) + 1];
        assert pairs[1..][i - 1] == pairs[i];
      }
    }
  }

  /** The command line the driver starts: interpreter and script, then the flags in order, each followed by its value. */
  lemma ArgvLayout(interpreter: string, c: Command)
    ensures var argv := Argv(interpreter, c);
      |argv| == 2 + 2 * |c.options| && argv[..2] == [interpreter, Script(c.stage)] &&
      forall i :: 0 <= i < |c.options| ==> argv[2 + 2 * i] == FlagText(c.options[i].0) && argv[3 + 2 * i] == c.options[i].1
  {
    FlattenLayout(c.options);
    var argv := Argv(interpreter, c);
    forall i | 0 <= i < |c.options|
      ensures argv[2 + 2 * i] == FlagText(c.options[i].0) && argv[3 + 2 * i] == c.options[i].1
    {
      assert argv[2 + 2 * i] == Flatten(c.options)[2 * i];
      assert argv[3 + 2 * i] == Flatten(c.options)[2 * i + 1];
    }
  }

  /** The value given for a flag: the first pair that names it. */
  function ValueOf(options: seq<(Flag, string)>, flag: Flag): (v: Option<string>)
    ensures v.Some? ==> exists i :: 0 <= i < |options| && options[i] == (flag, v.value)
  {
    if options == [] then None
    else if options[0].0 == flag then Some(options[0].1)
    else ValueOf(options[1..], flag)
  }

  // ---------------------------------------------------------------- running them

  /** What text-only mode checks before running anything: the words file, and a `.png` in the illustrations folder. */
  predicate ReadyForOverlay(o: Options, disk: Disk) {
    WordsJson(o.topic) in disk.existing && IllustrationsDir in disk.existing &&
    exists i :: 0 <= i < |disk.illustrationFiles| && IsPng(disk.illustrationFiles[i])
  }

  predicate IsPng(name: string) {
    |name| >= 4 && name[|name| - 4..] == ".png"
  }

  /** The number of commands that succeed before the first failure. */
  function FirstFailure(plan: seq<Command>, status: Status): nat {
    if plan == [] then 0
    else if status(plan[0]) != 0 then 0
    else 1 + FirstFailure(plan[1..], status)
  }

  /** The commands started and the exit status of the whole run. */
  datatype Run = Run(trace: seq<Command>, exit: int)

  /** The run `main` makes: a failed pre-check or the first failing command ends it with 1. */
  function Outcome(o: Options, disk: Disk, status: Status): Run {
    if o.textOnly && !ReadyForOverlay(o, disk) then Run([], 1)
    else Stopped(Plan(o), status)
  }

  /** Running the commands in turn until one fails. */
  function Stopped(plan: seq<Command>, status: Status): Run {
    var k := FirstFailure(plan, status);
    if k < |plan| then Run(plan[..k + 1], 1) else Run(plan, 0)
  }

  /** `run_command`: the command joins the trace, and the run is to stop when its status is not 0. */
  method RunCommand(trace: seq<Command>, cmd: Command, status: Status) returns (trace': seq<Command>, failed: bool)
    ensures trace' == trace + [cmd]
    ensures failed <==> status(cmd) != 0
  {
    trace' := trace + [cmd];
    failed := status(cmd) != 0;
  }

  /** `main`: the pre-checks, then the stages. */
  method RunPipeline(o: Options, disk: Disk, status: Status) returns (trace: seq<Command>, exit: int)
    ensures Run(trace, exit) == Outcome(o, disk, status)
  {
    if o.textOnly {
      var ready := CheckInputs(o, disk);
      if !ready {
        return [], 1;
      }
    }
    trace, exit := RunStages(Plan(o), o.textOnly, status);
  }

  /**
   * The stages of `main` in turn, each ending the run with 1 on failure:
   * the first three only in full mode, then the overlay, then the caption
   * only in full mode.
   */
  method RunStages(plan: seq<Command>, textOnly: bool, status: Status) returns (trace: seq<Command>, exit: int)
    requires |plan| == if textOnly then 1 else 5
    ensures Run(trace, exit) == Stopped(plan, status)
  {
    trace := [];
    var failed: bool;
    if !textOnly {
      trace, failed := RunCommand(trace, plan[0], status);
      if failed {
        FailsAt(plan, status, 0);
        return trace, 1;
      }
      trace, failed := RunCommand(trace, plan[1], status);
      if failed {
        FailsAt(plan, status, 1);
        return trace, 1;
      }
      trace, failed := RunCommand(trace, plan[2], status);
      if failed {
        FailsAt(plan, status, 2);
        return trace, 1;
      }
    }
    var overlayAt := if textOnly then 0 else 3;
    trace, failed := RunCommand(trace, plan[overlayAt], status);
    if failed {
      FailsAt(plan, status, overlayAt);
      return trace, 1;
    }
    if !textOnly {
      trace, failed := RunCommand(trace, plan[4], status);
      if failed {
        FailsAt(plan, status, 4);
        return trace, 1;
      }
    }
    AllSucceed(plan, status);
    exit := 0;
  }

  /** Text-only mode's checks: the words file, the illustrations folder, and a `.png` in it. */
  method CheckInputs(o: Options, disk: Disk) returns (ready: bool)
    ensures ready <==> ReadyForOverlay(o, disk)
  {
    if WordsJson(o.topic) !in disk.existing {
      return false;
    }
    if IllustrationsDir !in disk.existing {
      return false;
    }
    ready := HasPng(disk.illustrationFiles);
  }

  /** `any(glob("*.png"))`, one name at a time. */
  method HasPng(files: seq<string>) returns (found: bool)
    ensures found <==> exists i :: 0 <= i < |files| && IsPng(files[i])
  {
    var i := 0;
    while i < |files|
      invariant 0 <= i <= |files|
      invariant forall j :: 0 <= j < i ==> !IsPng(files[j])
    {
      if IsPng(files[i]) {
        return true;
      }
      i := i + 1;
    }
    return false;
  }

  // ---------------------------------------------------------------- properties

  function Stages(plan: seq<Command>): seq<Stage> {
    seq(|plan|, i requires 0 <= i < |plan| => plan[i].stage)
  }

  function Labels(plan: seq<Command>): seq<Label> {
    seq(|plan|, i requires 0 <= i < |plan| => plan[i].step)
  }

  /** Full mode runs the five stages in this order, with these step labels. */
  lemma FullModeOrder(o: Options)
    requires !o.textOnly
    ensures Stages(Plan(o)) == [WordList, GrammarCheck, Illustrate, Overlay, Caption]
    ensures Labels(Plan(o)) == [Step(1, 4), Step(2, 4), Step(3, 4), Step(4, 4), Step(5, 5)]
  {
  }

  /** Text-only mode runs the overlay alone, as "Step 1/1". */
  lemma TextOnlyPlan(o: Options)
    requires o.textOnly
    ensures Stages(Plan(o)) == [Overlay] && Labels(Plan(o)) == [Step(1, 1)]
  {
  }

  /** The number of commands that succeed, and the first that fails if any does. */
  lemma {:induction false} FirstFailureSpec(plan: seq<Command>, status: Status)
    ensures FirstFailure(plan, status) <= |plan|
    ensures forall j :: 0 <= j < FirstFailure(plan, status) ==> status(plan[j]) == 0
    ensures FirstFailure(plan, status) < |plan| ==> status(plan[FirstFailure(plan, status)]) != 0
  {
    if plan != [] && status(plan[0]) == 0 {
      FirstFailureSpec(plan[1..], status);
      assert forall j :: 1 <= j < |plan| ==> plan[1..][j - 1] == plan[j];
    }
  }

  /** The first failure is at `j` when every command before it succeeds and it does not. */
  lemma FirstFailureAt(plan: seq<Command>, status: Status, j: nat)
    requires j < |plan| && status(plan[j]) != 0
    requires forall i :: 0 <= i < j ==> status(plan[i]) == 0
    ensures FirstFailure(plan, status) == j
  {
    FirstFailureSpec(plan, status);
  }

  /** With every command succeeding there is no failure. */
  lemma NoFailure(plan: seq<Command>, status: Status)
    requires forall i :: 0 <= i < |plan| ==> status(plan[i]) == 0
    ensures FirstFailure(plan, status) == |plan|
  {
    FirstFailureSpec(plan, status);
  }

  /** The run when the command at `j` is the first to fail. */
  lemma FailsAt(plan: seq<Command>, status: Status, j: nat)
    requires j < |plan| && status(plan[j]) != 0
    requires forall i :: 0 <= i < j ==> status(plan[i]) == 0
    ensures Stopped(plan, status) == Run(plan[..j + 1], 1)
  {
    FirstFailureAt(plan, status, j);
  }

  /** The run when every command succeeds. */
  lemma AllSucceed(plan: seq<Command>, status: Status)
    requires forall i :: 0 <= i < |plan| ==> status(plan[i]) == 0
    ensures Stopped(plan, status) == Run(plan, 0)
  {
    NoFailure(plan, status);
  }

  /**
   * Text-only mode without the words file or without an illustration
   * exits with 1 before starting anything.
   */
  lemma PrechecksComeFirst(o: Options, disk: Disk, status: Status)
    requires o.textOnly
    ensures Outcome(o, disk, status).trace == [] <==> !ReadyForOverlay(o, disk)
    ensures !ReadyForOverlay(o, disk) ==> Outcome(o, disk, status).exit == 1
    ensures ReadyForOverlay(o, disk) ==>
      Outcome(o, disk, status) == Run([OverlayCommand(o)], if status(OverlayCommand(o)) != 0 then 1 else 0)
  {
    if ReadyForOverlay(o, disk) {
      FirstFailureSpec(Plan(o), status);
      assert [OverlayCommand(o)][..1] == [OverlayCommand(o)];
    }
  }

  /** The printed step labels. */
  lemma LabelTexts()
    ensures LabelText(Step(1, 1)) == "Step 1/1"
    ensures LabelText(Step(4, 4)) == "Step 4/4"
  {
    assert IntToString(1) == "1";
    assert IntToString(4) == "4";
  }

  /**
   * The commands started are the plan up to and including the first one
   * that fails; the run exits with 1 when one fails, whatever its own
   * status, and with 0 only when every command succeeded.
   */
  lemma StopsAtFirstFailure(o: Options, disk: Disk, status: Status)
    requires !o.textOnly || ReadyForOverlay(o, disk)
    ensures var run := Outcome(o, disk, status);
      var plan := Plan(o);
      (run.exit == 0 || run.exit == 1) &&
      0 < |run.trace| <= |plan| && run.trace == plan[..|run.trace|] &&
      (forall j :: 0 <= j < |run.trace| - 1 ==> status(plan[j]) == 0) &&
      (run.exit == 1 <==> status(run.trace[|run.trace| - 1]) != 0) &&
      (run.exit == 0 <==> run.trace == plan && forall j :: 0 <= j < |plan| ==> status(plan[j]) == 0)
  {
    FirstFailureSpec(Plan(o), status);
  }

  /**
   * Every stage that reads or writes the words file is given the same
   * path; the illustrations are always asked for 9:16 with the run's
   * topic, and the caption goes next to the words file.
   */
  lemma SharedPaths(o: Options)
    ensures ValueOf(WordsCommand(o).options, OutputFlag) == Some(WordsJson(o.topic))
    ensures ValueOf(GrammarCommand(o).options, WordsJsonFlag) == Some(WordsJson(o.topic))
    ensures ValueOf(IllustrationsCommand(o).options, WordsJsonFlag) == Some(WordsJson(o.topic))
    ensures ValueOf(IllustrationsCommand(o).options, TopicFlag) == Some(o.topic)
    ensures ValueOf(IllustrationsCommand(o).options, AspectFlag) == Some(Portrait)
    ensures ValueOf(OverlayCommand(o).options, WordsJsonFlag) == Some(WordsJson(o.topic))
    ensures ValueOf(CaptionCommand(o).options, OutputFlag) == Some(CaptionFile(o.topic))
  {
    WordsPaths(o);
    GrammarPaths(o);
    IllustrationsPaths(o);
    OverlayPaths(o);
    CaptionPaths(o);
  }

  lemma WordsPaths(o: Options)
    ensures ValueOf(WordsCommand(o).options, OutputFlag) == Some(WordsJson(o.topic))
  {
    ValueOfAt(WordsCommand(o).options, OutputFlag, 2);
  }

  lemma GrammarPaths(o: Options)
    ensures ValueOf(GrammarCommand(o).options, WordsJsonFlag) == Some(WordsJson(o.topic))
  {
    ValueOfAt(GrammarCommand(o).options, WordsJsonFlag, 0);
  }

  lemma OverlayPaths(o: Options)
    ensures ValueOf(OverlayCommand(o).options, WordsJsonFlag) == Some(WordsJson(o.topic))
  {
    ValueOfAt(OverlayCommand(o).options, WordsJsonFlag, 1);
  }

  lemma CaptionPaths(o: Options)
    ensures ValueOf(CaptionCommand(o).options, OutputFlag) == Some(CaptionFile(o.topic))
  {
    ValueOfAt(CaptionCommand(o).options, OutputFlag, 1);
  }

  lemma IllustrationsPaths(o: Options)
    ensures ValueOf(IllustrationsCommand(o).options, WordsJsonFlag) == Some(WordsJson(o.topic))
    ensures ValueOf(IllustrationsCommand(o).options, TopicFlag) == Some(o.topic)
    ensures ValueOf(IllustrationsCommand(o).options, AspectFlag) == Some(Portrait)
  {
    var opts := IllustrationsCommand(o).options;
    ValueOfAt(opts, WordsJsonFlag, 0);
    ValueOfAt(opts, TopicFlag, 1);
    ValueOfAt(opts, AspectFlag, 2);
  }

  /** The value of a flag is the one paired with its first occurrence. */
  lemma {:induction false} ValueOfAt(options: seq<(Flag, string)>, flag: Flag, i: nat)
    requires i < |options| && options[i].0 == flag
    requires forall j :: 0 <= j < i ==> options[j].0 != flag
    ensures ValueOf(options, flag) == Some(options[i].1)
    decreases i
  {
    if i > 0 {
      ValueOfAt(options[1..], flag, i - 1);
    }
  }
}

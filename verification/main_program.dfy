/**
 * The entry point of the command-line program (src/main.c). With no
 * arguments it prints the list of options and ends with status 0; with
 * arguments it runs the `getopt_long` loop and hands each option it returns
 * to its handler. The directory conversion and export helpers of src/main.c
 * are the same string decisions as module Conversion's.
 */
module MainProgram {
  import opened Strings

  /** The `has_arg` field of a `struct option`. */
  datatype HasArg = NoArgument | RequiredArgument | OptionalArgument

  /** One entry of the long-option table: its name, `has_arg` and the letter it returns. */
  datatype LongOption = LongOption(name: string, hasArg: HasArg, short: char)

  /** The table handed to `getopt_long`, without its terminating zero entry. */
  const LongOptions: seq<LongOption> := [
    LongOption("convert-directory", RequiredArgument, 'c'),
    LongOption("file", RequiredArgument, 'f'),
    LongOption("to", RequiredArgument, 't'),
    LongOption("gui", OptionalArgument, 'g'),
    LongOption("help", NoArgument, 'h'),
    LongOption("version", NoArgument, 'v')
  ]

  /** The short-option string handed to `getopt_long`, as written. */
  const ShortOptions := "c:f:t:g:vh"

  /**
   * The letters of a short-option string in getopt's syntax: a letter alone
   * takes no argument, one followed by `:` requires one, and one followed by
   * `::` takes an optional one.
   */
  function ShortSpec(s: string): (r: seq<(char, HasArg)>)
    ensures |r| <= |s|
  {
    ShortSpecFrom(s, 0)
  }

  /** The letters of `s` from position `i` on. */
  function ShortSpecFrom(s: string, i: nat): (r: seq<(char, HasArg)>)
    ensures i <= |s| ==> |r| <= |s| - i
    ensures i >= |s| ==> r == []
    decreases |s| - i
  {
    if i >= |s| then []
    else if i + 2 < |s| && s[i + 1] == ':' && s[i + 2] == ':' then [(s[i], OptionalArgument)] + ShortSpecFrom(s, i + 3)
    else if i + 1 < |s| && s[i + 1] == ':' then [(s[i], RequiredArgument)] + ShortSpecFrom(s, i + 2)
    else [(s[i], NoArgument)] + ShortSpecFrom(s, i + 1)
  }

  /** The letter of an option and its `has_arg`. */
  function ShortOf(o: LongOption): (char, HasArg)
  {
    (o.short, o.hasArg)
  }

  /**
   * Where the short-option string lists each option of the table: in the
   * same order, except that `v` comes before `h`.
   */
  function ShortPlace(i: nat): nat
  {
    if i == 4 then 5 else if i == 5 then 4 else i
  }

  /**
   * The short-option string lists the letter of every long option and no
   * other letter, and agrees with the table on the argument of every option
   * but `g`: `g:` makes `-g` require an argument, while `--gui` takes an
   * optional one.
   */
  lemma ShortOptionsAgree()
    ensures |ShortSpec(ShortOptions)| == |LongOptions|
    ensures forall i | 0 <= i < |LongOptions| :: ShortSpec(ShortOptions)[ShortPlace(i)].0 == LongOptions[i].short
    ensures forall i | 0 <= i < |LongOptions| ::
      ShortSpec(ShortOptions)[ShortPlace(i)].1 == LongOptions[i].hasArg <==> LongOptions[i].short != 'g'
  {
    ShortSpecValue();
  }

  /** The `g` entry: required after `-g`, optional after `--gui`. */
  lemma GuiArgumentMismatch()
    ensures ShortSpec(ShortOptions)[3] == ('g', RequiredArgument)
    ensures LongOptions[3] == LongOption("gui", OptionalArgument, 'g')
  {
    ShortSpecValue();
  }

  /** The short-option string as it was evidently meant, with `g::` for the optional argument. */
  const IntendedShortOptions := "c:f:t:g::vh"

  /** The intended short-option string agrees with the long-option table on every option. */
  lemma IntendedShortOptionsAgree()
    ensures |ShortSpec(IntendedShortOptions)| == |LongOptions|
    ensures forall i | 0 <= i < |LongOptions| :: ShortSpec(IntendedShortOptions)[ShortPlace(i)] == ShortOf(LongOptions[i])
  {
    IntendedShortSpecValue();
  }

  /** What the intended short-option string lists, in its order. */
  lemma IntendedShortSpecValue()
    ensures ShortSpec(IntendedShortOptions) == [('c', RequiredArgument), ('f', RequiredArgument), ('t', RequiredArgument),
                                                ('g', OptionalArgument), ('v', NoArgument), ('h', NoArgument)]
  {
    var s := IntendedShortOptions;
    assert ShortSpecFrom(s, 9) == [('v', NoArgument), ('h', NoArgument)];
    assert ShortSpecFrom(s, 6) == [('g', OptionalArgument)] + ShortSpecFrom(s, 9);
    assert ShortSpecFrom(s, 2) == [('f', RequiredArgument), ('t', RequiredArgument)] + ShortSpecFrom(s, 6);
  }

  /** What the short-option string as written lists, in its order. */
  lemma ShortSpecValue()
    ensures ShortSpec(ShortOptions) == [('c', RequiredArgument), ('f', RequiredArgument), ('t', RequiredArgument),
                                        ('g', RequiredArgument), ('v', NoArgument), ('h', NoArgument)]
  {
    var s := ShortOptions;
    assert ShortSpecFrom(s, 8) == [('v', NoArgument), ('h', NoArgument)];
    assert ShortSpecFrom(s, 4) == [('t', RequiredArgument), ('g', RequiredArgument)] + ShortSpecFrom(s, 8);
  }

  /** One line of the help text: the long name, the padding after it, the letter, the description. */
  datatype HelpRow = HelpRow(long: string, pad: string, short: char, about: string)

  /** The lines of the help text, in the order they are printed. */
  const HelpRows: seq<HelpRow> := [
    HelpRow("convert-directory", "  ", 'c', "Convert all WPI files in a directory."),
    HelpRow("file", ",              ", 'f', "Specify the WPI file to convert."),
    HelpRow("to", ",                ", 't', "Specify the file to write to."),
    HelpRow("gui", ",               ", 'g', "Start the graphical user interface."),
    HelpRow("version", ",           ", 'v', "Show versioning information."),
    HelpRow("help", ",              ", 'h', "Show this message.")
  ]

  /** How one row is printed. */
  function RowText(r: HelpRow): string
  {
    "  --" + r.long + r.pad + "-" + [r.short] + "  " + r.about + "\r\n"
  }

  /** The rows printed one after another. */
  function RowsText(rows: seq<HelpRow>): string
  {
    if rows == [] then [] else RowText(rows[0]) + RowsText(rows[1..])
  }

  /** The text `show_help` prints. */
  const HelpText := "\r\nAvailable options:\r\n" + RowsText(HelpRows) + "\r\n"

  /**
   * The help text has one row for every option of the long-option table,
   * with its name and letter, and no other row; like the short-option
   * string it lists version before help.
   */
  lemma HelpListsOptions()
    ensures |HelpRows| == |LongOptions|
    ensures forall i | 0 <= i < |LongOptions| ::
      HelpRows[ShortPlace(i)].long == LongOptions[i].name && HelpRows[ShortPlace(i)].short == LongOptions[i].short
  {
  }

  /** What the body of the option loop does for one value `getopt_long` returns. */
  datatype Step =
    | ConvertDirectory(path: string)   // `convert_directory(optarg, coordinates)`
    | ParseFile(path: string)          // `coordinates = p_wpi_parse(optarg)`
    | ExportTo(path: string)           // `export_to_file(coordinates, optarg)`
    | StartGui(arg: Option<string>)    // `gui_init_mainwindow(argc, argv, optarg)`
    | ShowHelp                         // `show_help()`
    | ShowVersion                      // `show_version()`
    | Nothing                          // no case, or an option without its argument

  /** The `switch` on the returned letter, with `optarg` as `arg`. */
  function Dispatch(letter: char, arg: Option<string>): Step
  {
    match letter
    case 'c' => if arg.Some? then ConvertDirectory(arg.value) else Nothing
    case 'f' => if arg.Some? then ParseFile(arg.value) else Nothing
    case 't' => if arg.Some? then ExportTo(arg.value) else Nothing
    case 'g' => StartGui(arg)
    case 'h' => ShowHelp
    case 'v' => ShowVersion
    case _ => Nothing
  }

  /**
   * A letter has an effect exactly when it is the letter of an option in
   * the table and, for an option that needs one, comes with its argument;
   * only `h` shows the help.
   */
  lemma DispatchHandlesOptions(letter: char, arg: Option<string>)
    ensures Dispatch(letter, arg) != Nothing <==>
      exists i :: 0 <= i < |LongOptions| && LongOptions[i].short == letter &&
        (LongOptions[i].hasArg == RequiredArgument ==> arg.Some?)
    ensures Dispatch(letter, arg) == ShowHelp <==> letter == 'h'
  {
    var place := "cftghv";
    if letter in place {
      var i :| 0 <= i < |place| && place[i] == letter;
      assert LongOptions[i].short == letter;
    }
    forall i | 0 <= i < |LongOptions| && LongOptions[i].short == letter
      ensures letter == place[i]
    {
    }
  }

  /** The steps for the values `getopt_long` returns before -1, in order. */
  function Steps(results: seq<(char, Option<string>)>): (r: seq<Step>)
    ensures |r| == |results|
    ensures forall i :: 0 <= i < |results| ==> r[i] == Dispatch(results[i].0, results[i].1)
  {
    if results == [] then []
    else Steps(results[..|results| - 1]) + [Dispatch(results[|results| - 1].0, results[|results| - 1].1)]
  }

  /**
   * The `while (arg != -1)` loop: `results` are the values `getopt_long`
   * returns before it returns -1, each with its `optarg`.
   */
  method OptionLoop(results: seq<(char, Option<string>)>) returns (steps: seq<Step>)
    ensures steps == Steps(results)
  {
    steps := [];
    var k := 0;
    while k < |results|
      invariant 0 <= k <= |results|
      invariant steps == Steps(results[..k])
    {
      assert results[..k + 1][..k] == results[..k];
      steps := steps + [Dispatch(results[k].0, results[k].1)];
      k := k + 1;
    }
    assert results[..k] == results;
  }

  /** The outcome of `main`: what it did, in order, and the status it returns. */
  datatype Run = Run(steps: seq<Step>, status: int)

  /**
   * `main` for an argument count `argc` (the program name included) and the
   * values `getopt_long` would return: without arguments only the help is
   * shown; with arguments every returned option is handled in turn. The
   * status is 0 either way.
   */
  function Main(argc: nat, results: seq<(char, Option<string>)>): (r: Run)
    ensures r.status == 0
    ensures argc <= 1 ==> r.steps == [ShowHelp]
    ensures argc > 1 ==> r.steps == Steps(results)
  {
    Run(if argc > 1 then Steps(results) else [ShowHelp], 0)
  }

  /**
   * The help is shown exactly when there are no arguments or an `h`
   * (`-h`, `--help`) is among the options returned.
   */
  lemma HelpShown(argc: nat, results: seq<(char, Option<string>)>)
    ensures ShowHelp in Main(argc, results).steps <==>
      argc <= 1 || exists i :: 0 <= i < |results| && results[i].0 == 'h'
  {
    var steps := Main(argc, results).steps;
    if argc > 1 {
      if ShowHelp in steps {
        var i :| 0 <= i < |steps| && steps[i] == ShowHelp;
        DispatchHandlesOptions(results[i].0, results[i].1);
      }
      if exists i :: 0 <= i < |results| && results[i].0 == 'h' {
        var i :| 0 <= i < |results| && results[i].0 == 'h';
        assert steps[i] == ShowHelp;
      }
    }
  }
}

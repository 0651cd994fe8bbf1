# InklingReader core, modelled in Dafny

InklingReader reads the `.WPI` files that the Wacom Inkling digital pen
writes and turns them into SVG, PNG or PDF drawings. This project models
the parts of the program that decide what happens to the data:

- `wpi_scan.dfy` (module `WpiScan`): the scan loop of `parse_wpi`. It walks a
  file's bytes from offset 2060. It counts pen, pressure, tilt, object,
  stroke and unknown records, and it decodes every pen record into an
  `(x, y)` coordinate. The loop is a method over an `array` of bytes. It is
  proved equal to a recursive specification (`ScanFrom`), and the
  statistics are proved about that specification.
- `color_lists.dfy` (module `ColorLists`): `high_parse_colors`. It copies a
  comma-separated colour list into a buffer, overwrites every comma with a
  NUL and keeps a pointer to each piece. The cut is a method over an
  `array<char>`. Each piece reads back as the corresponding element of
  `Split`, and `Split` is proved to be the inverse of joining with commas.
- `configuration.dfy` (module `Configuration`): the `dt_configuration`
  record of `src/datatypes/configuration.c`. It is a class whose methods
  update its fields:
  - its own colour parser, which stops at an empty piece;
  - cleanup;
  - page dimensions, scanned from the text or looked up in the 36-entry
    preset table, as written (with its US Letter height of 297.4 mm, see
    Findings);
  - the line-by-line reading of a configuration file.

  Each method is specified by a function on the record's value.
- `inkscape_import.dfy` (module `InkscapeImport`): the Inkscape input
  extension `wpi2svg-ext.py`, which does four things:
  - resolves the dialog's page-size options against its 65-entry paper table;
  - builds the `inklingreader` command line;
  - runs the command;
  - maps the command's exit status to its own.

  The custom flags are proved to read back from the command line.
- `conversion.dfy` (module `Conversion`): `high_convert_directory` and
  `high_export_to_file`. They decide which directory entries are converted
  and which paths are read and written. They also decide which exporter
  the target's extension selects. `src/main.c` repeats both helpers as
  `convert_directory` (lines 80-120) and `export_to_file` (lines 127-160),
  so the same members model those copies. The copies differ in one line
  that has no counterpart in the model: `high_export_to_file` calls
  `g_type_init()` when GLib is older than 2.36 (src/high/conversion.c:88-91),
  and `export_to_file` does not.
- `main_program.dfy` (module `MainProgram`): `main`. It covers:
  - the long-option table and the short-option string handed to
    `getopt_long`;
  - the rows of the help text;
  - the `switch` that hands each returned option to its handler, and the
    option loop around it;
  - the help shown when there are no arguments, and the status 0.
- `strings.dfy` (module `Strings`): the C string functions the core relies
  on: `strchr`, counting a character, reading a NUL-terminated string,
  `strstr`, and the last three characters of a name.

Some outside effects are parameters of the model:

- The C library's number readers, `atof` and `sscanf("%lfx%lf%s")`.
- Python's `str()` of a float.
- The process the extension starts.
- The lines of the configuration file.
- The entries a directory listing returns.

The source header `src/datatypes/configuration.h` declares no `orientation`
in `dt_page_dimensions`, but `dt_configuration_cleanup` frees
`config->page.orientation`. The model follows `configuration.c` and keeps
the field.

## Model

| member | source | states |
|---|---|---|
| Strings.IndexOf | src/datatypes/configuration.c:127-128 | `strchr`: a position within the string that holds the character, or the length |
| Strings.IndexOfNone | src/datatypes/configuration.c:127-128 | no position before the one `strchr` finds holds the character, and the length means the character is absent |
| Strings.CountChar | src/datatypes/configuration.c:37-39 | the count of a character is at most the length and is zero exactly when the character is absent |
| Strings.CString | src/datatypes/configuration.c:129-131 | a C string is the longest NUL-free prefix of its buffer |
| Strings.Find | src/datatypes/configuration.c:125 | `strstr`: the first position where the key occurs, and None exactly when it occurs nowhere |
| Strings.LastThree | src/high/conversion.c:48 | the last three characters of a name, with the name equal to its stem followed by them |
| WpiScan.Next | src/parsers/wpi.c:76-171 | every record moves the scan forward: six bytes for a pen record, two for a stroke record, one otherwise |
| WpiScan.Decode | src/parsers/wpi.c:86-95 | a pen coordinate has x in 5..65540 and y in 5..131075 |
| WpiScan.DecodeRecovers | src/parsers/wpi.c:89-95 | the four coordinate bytes are recovered from x and y, so no information is lost, and y is always odd |
| WpiScan.MovesOne | src/parsers/wpi.c:76-136 | a tag belongs to at most one counter |
| WpiScan.HitTotal | src/parsers/wpi.c:76-136 | one examined tag adds at most one to the counters together |
| WpiScan.Visits | src/parsers/wpi.c:60 | the positions the switch examines all lie between the start and the end of the file |
| WpiScan.ParseWpi | src/parsers/wpi.c:48-173 | the loop's statistics and coordinates are the recursive scan from offset 2060; there is one coordinate per counted pen record, each within its bounds |
| WpiScan.ScanFrom | src/parsers/wpi.c:60-173 | the recursive scan yields one point per counted pen record, each within the coordinate bounds |
| WpiScan.Examine | src/parsers/wpi.c:69-172 | one switch step adds one to the counter of the record's tag and nothing to the others, appends the decoded point of a pen record, and moves the position to the next record |
| WpiScan.ScanPoints | src/parsers/wpi.c:76-111 | the number of points equals the pen count, and every point lies within the coordinate bounds |
| WpiScan.ScanCounts | src/parsers/wpi.c:76-136 | each counter equals the number of examined positions that hold one of its tags; unknown counts tags 194, 197 and 199 together |
| WpiScan.ScanTotal | src/parsers/wpi.c:78-136 | the sum of the counters is at most the number of positions examined, and so at most the number of bytes from the start on |
| WpiScan.VisitsBound | src/parsers/wpi.c:60 | the scan examines at most one position per byte from its start, and none past the end |
| WpiScan.ShortFile | src/parsers/wpi.c:60 | a file of at most 2060 bytes yields zero statistics and no points |
| WpiScan.OnlyLaterBytes | src/parsers/wpi.c:60-172 | the scan from a position depends only on the bytes from that position on |
| WpiScan.HeaderIgnored | src/parsers/wpi.c:60 | the first 2060 bytes never affect the result |
| WpiScan.VisitsIncreasing | src/parsers/wpi.c:60-172 | the examined positions strictly increase, each at least one record after the previous one |
| WpiScan.PenRecordSkipped | src/parsers/wpi.c:86-103 | the five bytes after a pen tag are never examined as tags |
| WpiScan.StrokeSkipsSizeOnly | src/parsers/wpi.c:140-168 | after a stroke tag only its size byte is skipped, and the block bytes are examined as tags again |
| WpiScan.VisitsTail | src/parsers/wpi.c:60 | the positions after any examined position are exactly the scan started at its successor |
| ColorLists.Split | src/high/configuration.c:48-58 | the list always has at least one piece |
| ColorLists.SplitLength | src/high/configuration.c:33-38 | there is one piece more than there are commas |
| ColorLists.SplitCommaFree | src/high/configuration.c:51-53 | no piece holds a comma |
| ColorLists.JoinSplit | src/high/configuration.c:51-58 | the pieces joined with commas give back the text |
| ColorLists.SplitJoin | src/high/configuration.c:51-58 | comma-free pieces joined with commas split back into the same pieces |
| ColorLists.SplitAtComma | src/high/configuration.c:51-56 | cutting at the first comma gives its prefix followed by the pieces of the rest |
| ColorLists.FirstPiece | src/high/configuration.c:48 | without a comma the only piece is the text; with a comma there are at least two pieces |
| ColorLists.CountPieces | src/high/configuration.c:33-38 | the loop counts one more than the commas |
| ColorLists.CutAtCommas | src/high/configuration.c:48-58 | every comma of the buffer becomes a NUL and every other character stays; the first piece starts at 0 and each next one just past the previous piece and its NUL; the C string at each start is the matching piece |
| ColorLists.HighParseColors | src/high/configuration.c:29-62 | the colours are the comma-separated pieces, and their count is the number of commas plus one |
| Configuration.FillSlots | src/datatypes/configuration.c:45-70 | the slot walk stores exactly the pieces of the stopping split in order, and the remaining slots stay NULL |
| Configuration.DtPiecesBound | src/datatypes/configuration.c:48-70 | no more strings are stored than slots are allocated, and none of them is empty |
| Configuration.DtSlotsWithoutEmpty | src/datatypes/configuration.c:48-70 | without an empty piece every slot holds its piece |
| Configuration.DtSlotsEmptySegment | src/datatypes/configuration.c:50-69 | an empty piece stops the walk: its slot gets the rest of the text from its comma on, and later slots stay NULL |
| Configuration.DtPieces | src/datatypes/configuration.c:45-70 | the non-empty pieces up to the first empty one: none only for empty text, none of them empty, and none but the last holding a comma |
| Configuration.DtTrailingComma | src/datatypes/configuration.c:63 | after a trailing comma the last slot stays NULL |
| Configuration.ParsersAgree | src/datatypes/configuration.c:34-70 | the two colour parsers agree on every slot if and only if no piece is empty |
| Configuration.PresetsUpright | src/datatypes/configuration.c:205-240 | every preset is in millimetres and higher than it is wide |
| Configuration.LetterAsWritten | src/datatypes/configuration.c:206 | the table's US Letter height is 18 mm more than the 11 inches Inkscape gives |
| Configuration.PresetsAgree | src/datatypes/configuration.c:205-240 | with US Letter corrected, each of the 36 presets matches the Inkscape paper entry at its place, by name and by size to 0.1 mm |
| Configuration.PresetIndex | src/datatypes/configuration.c:244-257 | the index of the first entry with the name (exact comparison), or None exactly when no entry has it |
| Configuration.FindPreset | src/datatypes/configuration.c:245-256 | the search loop stops at the first entry with the name, or finds none exactly when no entry has it |
| Configuration.FirstPreset | src/datatypes/configuration.c:245-256 | the first entry carrying the name is the one the lookup finds |
| Configuration.PresetUnit | src/datatypes/configuration.c:251-253 | every preset's unit, and the two characters copied from it, are "mm" |
| Configuration.PresetLookup | src/datatypes/configuration.c:247-254 | a preset name sets the width and height of its first entry in the table as written and the unit "mm", and changes nothing else |
| Configuration.WithPreset | src/datatypes/configuration.c:200-258 | a name that no preset of the table as written has leaves the record unchanged; otherwise the unit becomes "mm"; only width, height and unit can change |
| Configuration.LetterLookup | src/datatypes/configuration.c:206 | "US Letter" sets a page 216 mm wide and 297.4 mm high in mm, as the table is written |
| Configuration.Cut | src/datatypes/configuration.c:127-129 | a line is cut at its first `\r` if it has one, otherwise at its first `\n` |
| Configuration.ValueAtText | src/datatypes/configuration.c:129-131 | the value runs from its offset to the cut |
| Configuration.LineEntry | src/datatypes/configuration.c:124-165 | the value a key line yields is NUL-free and no longer than the line |
| Configuration.LineEntryOrder | src/datatypes/configuration.c:125-165 | the keys are tried in the order colours, background, pressure factor, dimensions, and the first key found decides |
| Configuration.CutAtLineEnd | src/datatypes/configuration.c:127-129 | a line of plain text followed by a line ending is cut where the ending starts |
| Configuration.KeyLineValue | src/datatypes/configuration.c:124-131 | a line that starts with a key gives back everything between the key and the line ending |
| Configuration.ColorsLine | src/datatypes/configuration.c:125-132 | `colors = v` hands `v` to the colour parser |
| Configuration.BackgroundLine | src/datatypes/configuration.c:135-145 | `background = v` sets the background to `v` |
| Configuration.SpacedKeyLine | src/datatypes/configuration.c:148-155 | read from just before the key's final space, a line gives that space and the rest up to the line ending |
| Configuration.PressureLine | src/datatypes/configuration.c:148-155 | `pressure-factor = v` hands `atof` the text from the space before `v` (offset 17 for an 18-character key) |
| Configuration.DimensionsLine | src/datatypes/configuration.c:157-164 | `dimensions = v` hands `v` to the dimensions parser |
| Configuration.ColorsValid | src/datatypes/configuration.c:34-42 | parsing colours sets one slot per comma plus one and changes no other field |
| Configuration.CleanupResets | src/datatypes/configuration.c:78-101 | cleanup empties the colours, clears the four strings and keeps the numbers; a second cleanup changes nothing |
| Configuration.DefaultDimensions | src/datatypes/configuration.c:183-193 | without text, a zero width becomes 210, a zero height becomes 297, and a missing unit becomes "mm"; a second call changes nothing |
| Configuration.WithScan | src/datatypes/configuration.c:194-196 | a scan that assigns all three fields sets them and skips the preset table; only width, height and unit can change |
| Configuration.PartialScanPreset | src/datatypes/configuration.c:194-196 | a scan that does not assign all three fields falls back to the preset table as written, and a preset name overrides what the scan assigned |
| Configuration.LinesValid | src/datatypes/configuration.c:122-168 | every line keeps the colour count equal to the number of colour slots |
| Configuration.LineValid | src/datatypes/configuration.c:124-165 | one line keeps the colour count equal to the number of colour slots |
| Configuration.DimensionsKeepColors | src/datatypes/configuration.c:180-198 | parsing dimensions leaves the colours alone |
| Configuration.KeylessLines | src/datatypes/configuration.c:122-168 | lines without a key leave the record unchanged |
| Configuration.LaterBackgroundWins | src/datatypes/configuration.c:135-145 | the last background line decides the background |
| Configuration.Configuration.constructor | src/datatypes/configuration.h:30-39 | a new record is zero-filled and valid |
| Configuration.Configuration.ParseColors | src/datatypes/configuration.c:31-71 | the new record has the counted slots filled by the stopping split |
| Configuration.Configuration.Cleanup | src/datatypes/configuration.c:77-101 | the new record is the cleaned one |
| Configuration.Configuration.ParsePresetDimensions | src/datatypes/configuration.c:200-258 | the loop applies the first matching preset of the table as written, or changes nothing |
| Configuration.Configuration.ParseDimensions | src/datatypes/configuration.c:180-198 | the new record has the defaults, or the scanned fields followed by the preset fallback |
| Configuration.Configuration.ParseLine | src/datatypes/configuration.c:124-165 | one line updates the record as its first key says |
| Configuration.Configuration.Parse | src/datatypes/configuration.c:107-174 | the lines update the record in order; a missing file changes nothing |
| InkscapeImport.DecimalText | res/inkscape-extension/wpi2svg-ext.py:275-278 | `%s` of an int is non-empty decimal digits without a leading zero |
| InkscapeImport.DecimalTextRoundTrip | res/inkscape-extension/wpi2svg-ext.py:275-278 | reading the digits back gives the int |
| InkscapeImport.Text | res/inkscape-extension/wpi2svg-ext.py:261-283 | an int prints as decimal digits that read back as the int; a float prints as `str()` gives it |
| InkscapeImport.UnitName | res/inkscape-extension/wpi2svg-ext.py:53-117 | every unit of the paper table is written mm, in, pt or px |
| InkscapeImport.PaperSizesUpright | res/inkscape-extension/wpi2svg-ext.py:53-117 | every paper entry is never wider than high |
| InkscapeImport.EntryFrom | res/inkscape-extension/wpi2svg-ext.py:273 | a lookup from a position succeeds exactly when an entry at or after it has the name |
| InkscapeImport.FirstEntry | res/inkscape-extension/wpi2svg-ext.py:273 | a lookup succeeds exactly when some entry has the name, and returns that entry's size |
| InkscapeImport.LookupPaper | res/inkscape-extension/wpi2svg-ext.py:273 | a known paper name gives its upright table entry; an unknown one raises, modelled as None |
| InkscapeImport.ResolveDimensions | res/inkscape-extension/wpi2svg-ext.py:258-287 | custom dimensions always resolve, with the dialog's unit; a named size that resolves has the unit mm, in, pt or px |
| InkscapeImport.CustomDimensions | res/inkscape-extension/wpi2svg-ext.py:259-269 | custom dimensions are width by height in portrait and swapped otherwise |
| InkscapeImport.NamedDimensions | res/inkscape-extension/wpi2svg-ext.py:270-287 | a named size resolves exactly when the table has it, to that entry, oriented |
| InkscapeImport.NamedDimensionsUpright | res/inkscape-extension/wpi2svg-ext.py:274-283 | a named size is never wider than high in portrait and never higher than wide otherwise, and its unit is mm, in, pt or px |
| InkscapeImport.ResolvedQuoteFree | res/inkscape-extension/wpi2svg-ext.py:258-287 | the resolved unit holds no `"` when the custom unit holds none |
| InkscapeImport.RenderAppend | res/inkscape-extension/wpi2svg-ext.py:289 | concatenating flag runs concatenates their text |
| InkscapeImport.ParseRender | res/inkscape-extension/wpi2svg-ext.py:289 | flags without `"` in their values read back from their text |
| InkscapeImport.FlagValueAppend | res/inkscape-extension/wpi2svg-ext.py:289 | in two runs of flags, the first run's flag of a name wins |
| InkscapeImport.CustomFlagsOrder | res/inkscape-extension/wpi2svg-ext.py:289 | the custom flags come in the order dimensions, background, colours, pressure factor, each at most once, with pressure factor always last |
| InkscapeImport.CustomFlagValue | res/inkscape-extension/wpi2svg-ext.py:289 | for any page dimensions, looking up a flag in the custom flags looks it up in the four parts in order |
| InkscapeImport.BackgroundFlagValue | res/inkscape-extension/wpi2svg-ext.py:245-250 | whatever the page dimensions, the background flag carries the colour for `custom` and `none` for `none`, and is absent otherwise |
| InkscapeImport.ColorsFlagValue | res/inkscape-extension/wpi2svg-ext.py:253-256 | the colours flag carries the list for `custom` and is absent otherwise |
| InkscapeImport.PressureFlagValue | res/inkscape-extension/wpi2svg-ext.py:242 | the pressure factor is always passed |
| InkscapeImport.DimensionsFlagValue | res/inkscape-extension/wpi2svg-ext.py:258-287 | the dimensions flag is present exactly when there are page dimensions, and carries them |
| InkscapeImport.CustomFlagsReadable | res/inkscape-extension/wpi2svg-ext.py:241-289 | when no option value holds a `"`, the custom flags can be read back |
| InkscapeImport.CommandShape | res/inkscape-extension/wpi2svg-ext.py:208-220 | a command built from readable flags starts with the program, ends with the file options, and its middle reads back as the flags |
| InkscapeImport.Command | res/inkscape-extension/wpi2svg-ext.py:208-220 | every command starts with `inklingreader` and ends with the file options |
| InkscapeImport.DefaultTabCommand | res/inkscape-extension/wpi2svg-ext.py:234-237 | the default tab, and any unknown tab, run `inklingreader --file "<infile>" --direct-output` |
| InkscapeImport.CustomTabCommand | res/inkscape-extension/wpi2svg-ext.py:208-220 | the custom tab's command is the program, the custom flags, and the file options; the flags read back exactly |
| InkscapeImport.RunDirect | res/inkscape-extension/wpi2svg-ext.py:120-147 | the exit status is 0 with no message exactly when the command returned 0; otherwise it is 1 with the failure or error message |
| InkscapeImport.Input | res/inkscape-extension/wpi2svg-ext.py:228-296 | the extension exits 0 exactly when the command it built returned 0 |
| Conversion.Accept | src/high/conversion.c:48-49 | an accepted entry has at least three characters |
| Conversion.AcceptExactly | src/high/conversion.c:48-49 | an entry is converted if and only if it does not start with a dot and ends in upper-case `WPI` |
| Conversion.Snprintf | src/high/conversion.c:57 | `snprintf` keeps a prefix of at most size − 1 characters |
| Conversion.InputPath | src/high/conversion.c:51-57 | the input path fills its buffer exactly |
| Conversion.OutputPath | src/high/conversion.c:63-64 | the output path, with `svg` appended, still fits its buffer |
| Conversion.Rename | src/high/conversion.c:51-64 | the input path is `path/name`; the output path swaps the name's last three characters for `svg` and has the same length |
| Conversion.RenameAccepted | src/high/conversion.c:48-64 | for an accepted entry, input and output differ only in `WPI` versus `svg` |
| Conversion.Jobs | src/high/conversion.c:44-75 | there are never more jobs than entries |
| Conversion.AcceptedEntries | src/high/conversion.c:49 | the entries kept are accepted ones, in order |
| Conversion.ConvertDirectory | src/high/conversion.c:37-77 | the loop produces the job list of the listing |
| Conversion.JobsStep | src/high/conversion.c:44-75 | one more directory entry keeps the jobs equal to the renamed accepted entries |
| Conversion.JobsNext | src/high/conversion.c:44-75 | the jobs of one more entry are the jobs so far, followed by that entry's job when it is accepted |
| Conversion.JobsOfAccepted | src/high/conversion.c:44-75 | the jobs are exactly the accepted entries, in order, each read from `path/name` and written with `svg` for its extension |
| Conversion.ExportChoice | src/high/conversion.c:98-122 | SVG is rendered exactly for names longer than three characters; png, pdf and svg pick their exporter exactly; every other name is refused |
| Conversion.ExportPlan | src/high/conversion.c:98-122 | an exporter is called only for a plan that renders SVG, and a plan that renders nothing calls none (src/main.c:127-160 as well) |
| MainProgram.ShortSpec | src/main.c:196 | a short-option string read in getopt's syntax: a letter alone takes no argument, `x:` requires one, `x::` takes an optional one; never more letters than characters |
| MainProgram.ShortOptionsAgree | src/main.c:182-196 | the short-option string lists the letter of every long option and no other letter, and agrees with the table on the argument of every option except `g` |
| MainProgram.GuiArgumentMismatch | src/main.c:187-196 | `g:` makes `-g` require an argument, while `--gui` is declared with an optional one (see Findings) |
| MainProgram.IntendedShortOptionsAgree | src/main.c:182-196 | with `g::` in place of `g:`, the short-option string agrees with the long-option table on every letter and argument (see Findings) |
| MainProgram.HelpListsOptions | src/main.c:63-73 | the help text has one row per long option, with its name and letter, and no other row |
| MainProgram.DispatchHandlesOptions | src/main.c:198-252 | a returned letter has an effect exactly when it is an option's letter and comes with the argument that option requires; only `h` shows the help |
| MainProgram.Steps | src/main.c:193-253 | one step per returned option, in order, each the one its letter selects |
| MainProgram.OptionLoop | src/main.c:193-253 | the loop performs the steps of the returned options in order |
| MainProgram.Main | src/main.c:167-259 | without arguments only the help is shown; with arguments every returned option is handled in turn; the status is 0 |
| MainProgram.HelpShown | src/main.c:167-259 | the help is shown exactly when there are no arguments or an `h` option is returned |

## Left out

- File and directory I/O is left out: `fopen`, `fread`, `ftell`, `getline`, `opendir` and `readdir`, `fwrite`, and `access`. The model takes as input the bytes, lines and entries they would yield. A missing configuration file is None.
- Conversion.ExportPlan: in the svg branch the source calls `fclose` on the handle `fopen` returned even when that handle is NULL (src/high/conversion.c:110-117, src/main.c:146-153); the plan does not show this crash, since file handles are not modelled.
- The parsing and rendering calls `p_wpi_parse`, `co_svg_create`, `co_svg_create_file`, `co_png_export_to_file` and `co_pdf_export_to_file` are not part of this model. `ConvertDirectory` returns the (input, output) pairs it would hand them, and `ExportPlan` returns the exporter it would call.
- All `printf` output of `parse_wpi` is left out: the file size, "Analyzing", each coordinate and the statistics table. The coordinates and statistics are returned instead.
- Allocation failures are left out, and every `malloc`/`calloc` is taken to succeed. This hides several behaviours:
  - In `parse_wpi`, a failed allocation would count a pen record without skipping its bytes.
  - `high_convert_directory` would stop at its `break`.
  - The configuration parsers would keep a partial result.
  - `dt_configuration_parse` applies `memset` to the background buffer before its NULL test.
- WpiScan.ParseWpi requires every record to fit inside the file (`InBounds`). In C, a record truncated by the end of the file reads past the buffer.
- WpiScan: the `int` counters of `dt_statistics` are unbounded integers. Their 32-bit overflow is not modelled; `ScanTotal` bounds their sum by the number of bytes after the start, through `VisitsBound`.
- Conversion.Accept requires a name of at least three characters, or one that starts with a dot. For a shorter name, C reads before the start of the name.
- Configuration.Configuration.ParseDimensions: `sscanf` is the parameter `scan`, which returns how many fields it assigned and their values. The model does not capture two cases:
  - `%s` writing through a NULL unit pointer.
  - A unit longer than the three bytes the defaults allocate.
- Configuration.DefaultDimensions: `strncpy(measurement, "mm", 2)` keeps any characters after the first two of an existing unit. The lemma states "mm" only for a missing unit or one of at most two characters.
- The `type` field of `dt_configuration` is not modelled, because no core function reads or writes it.
- Configuration.Configuration.Cleanup: the per-slot `free` calls have no counterpart. Freeing memory is not modelled.
- `atof`, `sscanf` and Python's `str()` of a float are parameters (`atof`, `scan`, `floatStr`). Floating-point formatting and rounding are not modelled.
- InkscapeImport.Input: the `%` formatting that substitutes the input file name into the command is modelled as plain concatenation. A `%` inside an option value is not modelled.
- InkscapeImport: the `verbose` debug output, the option parser, and the `effect`/`output`/`affect` plumbing of `inkex` are left out.
- `getopt_long` itself is left out: `main` takes the letters and arguments it would return. The handlers are named by the steps; what `convert_directory` and `export_to_file` decide is module Conversion, and `p_wpi_parse`, the GUI, the text `show_version` prints, the configuration-file location and the USB online mode are not part of this model.

## Findings

| source | as written | input that shows it | evidently intended | confidence | as-written member | corrected member |
|---|---|---|---|---|---|---|
| src/datatypes/configuration.c:206 | the "US Letter" preset is 216 × 297.4 mm | `dimensions = US Letter` gives a page 297.4 mm high, while Inkscape's US Letter is 8.5 × 11 in (279.4 mm high) | 216 × 279.4 mm, which agrees with the other 35 presets and with Inkscape's table | high; not executed | Configuration.LetterAsWritten | Configuration.PresetsAgree |
| src/main.c:196 | the short-option string gives `g:`, so `-g` requires an argument | `inklingreader -g` with no argument: getopt reports a missing argument and no GUI starts, while `inklingreader --gui` starts it with no argument, since the long option is `optional_argument` (src/main.c:187) | `g::`, so that `-g` and `--gui` both take an optional argument | medium; not executed | MainProgram.GuiArgumentMismatch | MainProgram.IntendedShortOptionsAgree |

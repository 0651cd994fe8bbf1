/**
 * The string decisions of the high-level conversion helpers
 * (src/high/conversion.c, repeated in src/main.c): which directory entries
 * are converted, which paths are read and written, and which exporter the
 * name of a target file selects. Opening directories, parsing files and
 * rendering are left to the caller: the directory loop returns the jobs it
 * would run.
 */
module Conversion {
  import opened Strings

  /** The extension a directory entry needs to be converted. */
  const WpiExtension := "WPI"

  /** What replaces it in the name of the file written. */
  const SvgExtension := "svg"

  /** The message printed for a target whose extension is not supported. */
  const UnsupportedMessage := "Only PNG (.png), SVG (.svg) and PDF (.pdf) are supported.\r\n"

  /** `s` is some text followed by `ext`. */
  ghost predicate EndsIn(s: string, ext: string)
  {
    exists stem: string :: s == stem + ext
  }

  /**
   * Where the entry filter reads: the first character always, the last
   * three only for a name that does not start with a dot (`&&` stops
   * first). C reads before the name otherwise.
   */
  predicate Readable(name: string)
  {
    name != [] && (name[0] == '.' || |name| >= 3)
  }

  /** The filter applied to each directory entry. */
  function Accept(name: string): (r: bool)
    requires Readable(name)
    ensures r ==> |name| >= 3
  {
    name[0] != '.' && LastThree(name) == WpiExtension
  }

  /**
   * An entry is converted exactly when it does not start with a dot and
   * ends in upper-case `WPI`.
   */
  lemma AcceptExactly(name: string)
    requires Readable(name)
    ensures Accept(name) <==> name[0] != '.' && EndsIn(name, WpiExtension)
  {
    if name[0] != '.' && EndsIn(name, WpiExtension) {
      var stem :| name == stem + WpiExtension;
      assert LastThree(name) == WpiExtension;
    }
    if Accept(name) {
      assert name == name[..|name| - 3] + WpiExtension;
    }
  }

  /**
   * `snprintf` into a buffer of `size` bytes: at most `size - 1` characters
   * of the formatted text are kept, and a NUL ends them.
   */
  function Snprintf(text: string, size: nat): (r: string)
    requires size > 0
    ensures r <= text
    ensures |r| == if |text| < size then |text| else size - 1
  {
    if |text| < size then text else text[..size - 1]
  }

  /** The size of both path buffers: both strings, the slash and the NUL. */
  function BufferSize(path: string, name: string): nat
  {
    |path| + |name| + 2
  }

  /** The file parsed for an entry: `path/name`. */
  function InputPath(path: string, name: string): (r: string)
    ensures |r| + 1 == BufferSize(path, name)
  {
    Snprintf(path + "/" + name, BufferSize(path, name))
  }

  /**
   * The file written for an entry: `path/name` formatted into three bytes
   * less than its buffer, so that the last three characters are cut, and
   * then `svg` appended.
   */
  function OutputPath(path: string, name: string): (r: string)
    requires |name| >= 3
    ensures |r| + 1 <= BufferSize(path, name)
  {
    Snprintf(path + "/" + name, BufferSize(path, name) - 3) + SvgExtension
  }

  /**
   * The input path is exactly `path/name`; the output path replaces the
   * entry's last three characters by `svg`, so it has the same length and
   * fits the buffer `strcat` writes into, and `d/x.WPI` becomes `d/x.svg`.
   */
  lemma Rename(path: string, name: string)
    requires |name| >= 3
    ensures InputPath(path, name) == path + "/" + name
    ensures OutputPath(path, name) == path + "/" + name[..|name| - 3] + SvgExtension
    ensures |OutputPath(path, name)| == |InputPath(path, name)|
  {
    var full := path + "/" + name;
    assert full[..|full| - 3] == path + "/" + name[..|name| - 3];
  }

  /** A converted entry's output differs from its input only in the extension. */
  lemma RenameAccepted(path: string, name: string)
    requires Readable(name) && Accept(name)
    ensures var i := InputPath(path, name); var o := OutputPath(path, name);
      |i| == |o| && i[..|i| - 3] == o[..|o| - 3] &&
      i[|i| - 3..] == WpiExtension && o[|o| - 3..] == SvgExtension
  {
    Rename(path, name);
    var stem := path + "/" + name[..|name| - 3];
    assert name == name[..|name| - 3] + LastThree(name);
    assert path + "/" + name == stem + WpiExtension;
  }

  /** The work done for one accepted entry: the file parsed and the file written. */
  datatype Job = Job(input: string, output: string)

  /** The jobs for a directory listing, in the order the entries are read. */
  function Jobs(path: string, entries: seq<string>): (r: seq<Job>)
    requires forall k :: 0 <= k < |entries| ==> Readable(entries[k])
    ensures |r| <= |entries|
  {
    if entries == [] then []
    else
      var e := entries[|entries| - 1];
      var rest := Jobs(path, entries[..|entries| - 1]);
      if Accept(e) then rest + [Job(InputPath(path, e), OutputPath(path, e))] else rest
  }

  /**
   * `high_convert_directory`'s loop over the entries `readdir` returns:
   * every accepted entry is parsed from `path/name` and written to the same
   * path with `svg` for its extension.
   */
  method ConvertDirectory(path: string, entries: seq<string>) returns (jobs: seq<Job>)
    requires forall k :: 0 <= k < |entries| ==> Readable(entries[k])
    ensures jobs == Jobs(path, entries)
  {
    jobs := [];
    var k := 0;
    while k < |entries|
      invariant 0 <= k <= |entries|
      invariant jobs == Jobs(path, entries[..k])
    {
      var name := entries[k];
      JobsNext(path, entries, k);
      if name[0] != '.' && LastThree(name) == WpiExtension {
        var input := InputPath(path, name);
        var output := OutputPath(path, name);
        jobs := jobs + [Job(input, output)];
      }
      k := k + 1;
    }
    assert entries[..k] == entries;
  }

  /** One more entry adds its job when the filter accepts it. */
  lemma JobsNext(path: string, entries: seq<string>, k: nat)
    requires k < |entries| && forall i :: 0 <= i < |entries| ==> Readable(entries[i])
    ensures Jobs(path, entries[..k + 1]) ==
      Jobs(path, entries[..k]) + (if Accept(entries[k]) then [Job(InputPath(path, entries[k]), OutputPath(path, entries[k]))] else [])
  {
    assert entries[..k + 1][..k] == entries[..k];
  }

  /**
   * Each job comes from an accepted entry, and every accepted entry gets a
   * job: the jobs are exactly the accepted entries, renamed, in order.
   */
  lemma {:induction false} JobsOfAccepted(path: string, entries: seq<string>)
    requires forall k :: 0 <= k < |entries| ==> Readable(entries[k])
    ensures var accepted := AcceptedEntries(entries);
      |Jobs(path, entries)| == |accepted| &&
      forall j :: 0 <= j < |accepted| ==> Jobs(path, entries)[j] == Renamed(path, accepted[j])
  {
    if entries != [] {
      JobsOfAccepted(path, entries[..|entries| - 1]);
      JobsStep(path, entries);
    }
  }

  /** The jobs are the renamed accepted entries: one more entry keeps that so. */
  lemma JobsStep(path: string, entries: seq<string>)
    requires entries != [] && forall k :: 0 <= k < |entries| ==> Readable(entries[k])
    requires var front := entries[..|entries| - 1];
      var accepted := AcceptedEntries(front);
      |Jobs(path, front)| == |accepted| &&
      forall j :: 0 <= j < |accepted| ==> Jobs(path, front)[j] == Renamed(path, accepted[j])
    ensures var accepted := AcceptedEntries(entries);
      |Jobs(path, entries)| == |accepted| &&
      forall j :: 0 <= j < |accepted| ==> Jobs(path, entries)[j] == Renamed(path, accepted[j])
  {
    var e := entries[|entries| - 1];
    if Accept(e) {
      Rename(path, e);
    }
  }

  /** The job for an accepted entry: `path/name`, and the same with `svg` for the last three characters. */
  function Renamed(path: string, name: string): Job
    requires |name| >= 3
  {
    Job(path + "/" + name, path + "/" + name[..|name| - 3] + SvgExtension)
  }

  /** The entries the filter lets through, in order. */
  function AcceptedEntries(entries: seq<string>): (r: seq<string>)
    requires forall k :: 0 <= k < |entries| ==> Readable(entries[k])
    ensures forall j :: 0 <= j < |r| ==> Readable(r[j]) && Accept(r[j])
    ensures |r| <= |entries|
  {
    if entries == [] then []
    else
      var e := entries[|entries| - 1];
      var rest := AcceptedEntries(entries[..|entries| - 1]);
      if Accept(e) then rest + [e] else rest
  }

  /** What `high_export_to_file` does with the rendered drawing. */
  datatype Action = ExportPng | ExportPdf | WriteSvg | Unsupported

  /** Whether the SVG text is rendered at all, and what is done with it. */
  datatype Plan = Plan(rendersSvg: bool, action: Action)

  /** The decision `high_export_to_file` takes from the target's name. */
  function ExportPlan(to: string): (r: Plan)
    ensures r.action != Unsupported ==> r.rendersSvg
    ensures !r.rendersSvg ==> r.action == Unsupported
  {
    if |to| > 3 then
      var extension := LastThree(to);
      Plan(true,
           if extension == "png" then ExportPng
           else if extension == "pdf" then ExportPdf
           else if extension == "svg" then WriteSvg
           else Unsupported)
    else Plan(false, Unsupported)
  }

  /**
   * The SVG text is rendered exactly for targets longer than three
   * characters; a target is exported exactly when it is some non-empty text
   * followed by `png`, `pdf` or `svg` (lower case), and then by the exporter
   * that extension names. Every other target, including every name of
   * three characters or fewer, is refused with a message.
   */
  lemma ExportChoice(to: string)
    ensures ExportPlan(to).rendersSvg <==> |to| > 3
    ensures ExportPlan(to).action == ExportPng <==> |to| > 3 && EndsIn(to, "png")
    ensures ExportPlan(to).action == ExportPdf <==> |to| > 3 && EndsIn(to, "pdf")
    ensures ExportPlan(to).action == WriteSvg <==> |to| > 3 && EndsIn(to, "svg")
    ensures ExportPlan(to).action == Unsupported <==>
      |to| <= 3 || !(EndsIn(to, "png") || EndsIn(to, "pdf") || EndsIn(to, "svg"))
  {
    if |to| >= 3 {
      assert to == to[..|to| - 3] + LastThree(to);
    }
    forall ext: string | |ext| == 3 && EndsIn(to, ext)
      ensures LastThree(to) == ext
    {
      var stem :| to == stem + ext;
      assert to[|to| - 3..] == ext;
    }
  }
}

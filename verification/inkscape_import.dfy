/**
 * Model of the Inkscape input extension `wpi2svg-ext.py`. The extension reads
 * the options of its "Import WPI" dialog, turns them into one `inklingreader`
 * command line, runs it and turns the tool's exit status into its own.
 *
 * Python's `str()` of a float is not modelled: every function that prints a
 * float takes that conversion as the parameter `floatStr`.
 */
module InkscapeImport {
  import opened Strings

  // ------------------------------------------------------------------------
  // Numbers as the extension prints them

  /** A number as the Python source holds it: an `int` literal or a `float`. */
  datatype Number = Int(i: nat) | Float(x: real)

  /** The numeric value of a number. */
  function Value(n: Number): real
  {
    match n
    case Int(i) => i as real
    case Float(x) => x
  }

  /** Every character of `s` is a decimal digit. */
  predicate IsDigits(s: string)
  {
    forall k :: 0 <= k < |s| ==> '0' <= s[k] <= '9'
  }

  /** Python's `str()` of a non-negative int: its decimal digits, no leading zero. */
  function DecimalText(n: nat): (r: string)
    ensures |r| >= 1 && IsDigits(r)
    ensures r[0] == '0' ==> n == 0
  {
    if n < 10 then [('0' as int + n) as char]
    else DecimalText(n / 10) + [('0' as int + n % 10) as char]
  }

  /** The number a string of decimal digits denotes. */
  function DigitsValue(s: string): nat
    requires IsDigits(s)
  {
    if s == [] then 0
    else DigitsValue(s[..|s| - 1]) * 10 + (s[|s| - 1] as int - '0' as int)
  }

  /** Reading back the digits `str()` prints for an int gives that int. */
  lemma {:induction false} DecimalTextRoundTrip(n: nat)
    ensures DigitsValue(DecimalText(n)) == n
  {
    if n >= 10 {
      var r := DecimalText(n);
      assert r[..|r| - 1] == DecimalText(n / 10);
      DecimalTextRoundTrip(n / 10);
    }
  }

  /** The `%s` conversion of a number. */
  function Text(n: Number, floatStr: real -> string): (r: string)
    ensures n.Int? ==> IsDigits(r) && DigitsValue(r) == n.i
    ensures n.Float? ==> r == floatStr(n.x)
  {
    match n
    case Int(i) => DecimalTextRoundTrip(i); DecimalText(i)
    case Float(x) => floatStr(x)
  }

  // ------------------------------------------------------------------------
  // The paper sizes known to Inkscape (`inkscape_papersizes`)

  /** One entry of the paper-size table: width, height and unit. */
  datatype PaperSize = PaperSize(width: Number, height: Number, unit: Unit)

  /** The four units of the table. */
  datatype Unit = Mm | In | Pt | Px

  /** How a unit is written. */
  function UnitName(u: Unit): (r: string)
    ensures KnownUnit(r)
  {
    match u
    case Mm => "mm"
    case In => "in"
    case Pt => "pt"
    case Px => "px"
  }

  // The table, in the order the source lists it, in five consecutive parts.
  const PaperSizes0: seq<(string, PaperSize)> := [
    ("A4", PaperSize(Int(210), Int(297), Mm)),
    ("US Letter", PaperSize(Float(8.5), Int(11), In)),
    ("US Legal", PaperSize(Float(8.5), Int(14), In)),
    ("US Executive", PaperSize(Float(7.25), Float(10.5), In)),
    ("A0", PaperSize(Int(841), Int(1189), Mm)),
    ("A1", PaperSize(Int(594), Int(841), Mm)),
    ("A2", PaperSize(Int(420), Int(594), Mm)),
    ("A3", PaperSize(Int(297), Int(420), Mm)),
    ("A5", PaperSize(Int(148), Int(210), Mm)),
    ("A6", PaperSize(Int(105), Int(148), Mm)),
    ("A7", PaperSize(Int(74), Int(105), Mm)),
    ("A8", PaperSize(Int(52), Int(74), Mm)),
    ("A9", PaperSize(Int(37), Int(52), Mm))
  ]

  const PaperSizes1: seq<(string, PaperSize)> := [
    ("A10", PaperSize(Int(26), Int(37), Mm)),
    ("B0", PaperSize(Int(1000), Int(1414), Mm)),
    ("B1", PaperSize(Int(707), Int(1000), Mm)),
    ("B2", PaperSize(Int(500), Int(707), Mm)),
    ("B3", PaperSize(Int(353), Int(500), Mm)),
    ("B4", PaperSize(Int(250), Int(353), Mm)),
    ("B5", PaperSize(Int(176), Int(250), Mm)),
    ("B6", PaperSize(Int(125), Int(176), Mm)),
    ("B7", PaperSize(Int(88), Int(125), Mm)),
    ("B8", PaperSize(Int(62), Int(88), Mm)),
    ("B9", PaperSize(Int(44), Int(62), Mm)),
    ("B10", PaperSize(Int(31), Int(44), Mm)),
    ("C0", PaperSize(Int(917), Int(1297), Mm))
  ]

  const PaperSizes2: seq<(string, PaperSize)> := [
    ("C1", PaperSize(Int(648), Int(917), Mm)),
    ("C2", PaperSize(Int(458), Int(648), Mm)),
    ("C3", PaperSize(Int(324), Int(458), Mm)),
    ("C4", PaperSize(Int(229), Int(324), Mm)),
    ("C5", PaperSize(Int(162), Int(229), Mm)),
    ("C6", PaperSize(Int(114), Int(162), Mm)),
    ("C7", PaperSize(Int(81), Int(114), Mm)),
    ("C8", PaperSize(Int(57), Int(81), Mm)),
    ("C9", PaperSize(Int(40), Int(57), Mm)),
    ("C10", PaperSize(Int(28), Int(40), Mm)),
    ("D1", PaperSize(Int(545), Int(771), Mm)),
    ("D2", PaperSize(Int(385), Int(545), Mm)),
    ("D3", PaperSize(Int(272), Int(385), Mm))
  ]

  const PaperSizes3: seq<(string, PaperSize)> := [
    ("D4", PaperSize(Int(192), Int(272), Mm)),
    ("D5", PaperSize(Int(136), Int(192), Mm)),
    ("D6", PaperSize(Int(96), Int(136), Mm)),
    ("D7", PaperSize(Int(68), Int(96), Mm)),
    ("E3", PaperSize(Int(400), Int(560), Mm)),
    ("E4", PaperSize(Int(280), Int(400), Mm)),
    ("E5", PaperSize(Int(200), Int(280), Mm)),
    ("E6", PaperSize(Int(140), Int(200), Mm)),
    ("CSE", PaperSize(Int(462), Int(649), Pt)),
    ("US #10 Envelope", PaperSize(Float(4.125), Float(9.5), In)),
    ("DL Envelope", PaperSize(Int(110), Int(220), Mm)),
    ("Ledger/Tabloid", PaperSize(Int(11), Int(17), In)),
    ("Banner 468x60", PaperSize(Int(60), Int(468), Px))
  ]

  const PaperSizes4: seq<(string, PaperSize)> := [
    ("Icon 16x16", PaperSize(Int(16), Int(16), Px)),
    ("Icon 32x32", PaperSize(Int(32), Int(32), Px)),
    ("Icon 48x48", PaperSize(Int(48), Int(48), Px)),
    ("Business Card (ISO 7810)", PaperSize(Float(53.98), Float(85.60), Mm)),
    ("Business Card (US)", PaperSize(Int(2), Float(3.5), In)),
    ("Business Card (Europe)", PaperSize(Int(55), Int(85), Mm)),
    ("Business Card (Aus/NZ)", PaperSize(Int(55), Int(90), Mm)),
    ("Arch A", PaperSize(Int(9), Int(12), In)),
    ("Arch B", PaperSize(Int(12), Int(18), In)),
    ("Arch C", PaperSize(Int(18), Int(24), In)),
    ("Arch D", PaperSize(Int(24), Int(36), In)),
    ("Arch E", PaperSize(Int(36), Int(48), In)),
    ("Arch E1", PaperSize(Int(30), Int(42), In))
  ]

  const PaperSizes: seq<(string, PaperSize)> :=
    PaperSizes0 + PaperSizes1 + PaperSizes2 + PaperSizes3 + PaperSizes4

  /** The names of the four units. */
  predicate KnownUnit(u: string)
  {
    u == "mm" || u == "in" || u == "pt" || u == "px"
  }

  /** An entry is never wider than it is high. */
  predicate Upright(e: (string, PaperSize))
  {
    Value(e.1.width) <= Value(e.1.height)
  }

  lemma PaperSizes0Upright() ensures forall e | e in PaperSizes0 :: Upright(e) {}
  lemma PaperSizes1Upright() ensures forall e | e in PaperSizes1 :: Upright(e) {}
  lemma PaperSizes2Upright() ensures forall e | e in PaperSizes2 :: Upright(e) {}
  lemma PaperSizes3Upright() ensures forall e | e in PaperSizes3 :: Upright(e) {}
  lemma PaperSizes4Upright() ensures forall e | e in PaperSizes4 :: Upright(e) {}

  /** Every entry of the table is upright. */
  lemma PaperSizesUpright()
    ensures forall e | e in PaperSizes :: Upright(e)
  {
    PaperSizes0Upright();
    PaperSizes1Upright();
    PaperSizes2Upright();
    PaperSizes3Upright();
    PaperSizes4Upright();
  }

  /** The first entry of `table` named `name`. */
  function FirstEntry(table: seq<(string, PaperSize)>, name: string): (r: Option<PaperSize>)
    ensures r.Some? <==> exists e :: e in table && e.0 == name
    ensures r.Some? ==> (name, r.value) in table
  {
    EntryFrom(table, name, 0)
  }

  /** The first entry named `name` at index `i` or later. */
  function EntryFrom(table: seq<(string, PaperSize)>, name: string, i: nat): (r: Option<PaperSize>)
    requires i <= |table|
    ensures r.Some? <==> exists k :: i <= k < |table| && table[k].0 == name
    ensures r.Some? ==> (name, r.value) in table
    decreases |table| - i
  {
    if i == |table| then None
    else if table[i].0 == name then Some(table[i].1)
    else EntryFrom(table, name, i + 1)
  }

  /** `inkscape_papersizes[name]`, with None for a name the table lacks. */
  function LookupPaper(name: string): (r: Option<PaperSize>)
    ensures r.Some? <==> exists e :: e in PaperSizes && e.0 == name
    ensures r.Some? ==> (name, r.value) in PaperSizes && Upright((name, r.value))
  {
    PaperSizesUpright();
    FirstEntry(PaperSizes, name)
  }

  // ------------------------------------------------------------------------
  // The option bundle and its resolution

  /** The dialog's options as `inkex` hands them over. */
  datatype Options = Options(
    tab: string,
    dimensions: string,
    orientation: string,
    width: real,
    height: real,
    units: string,
    background: string,
    backgroundColor: string,
    foreground: string,
    foregroundColors: string,
    pressureFactor: real)

  const HelperApp: string := "inklingreader"
  /** Inkscape passes the name of the selected notebook page with its quotes. */
  const DefaultTab: string := "\"default_tab\""
  const CustomTab: string := "\"custom_import_tab\""

  /** Page dimensions as the command states them. */
  datatype Dims = Dims(width: Number, height: Number, unit: string)

  /** Width and height as given when `portrait`, swapped for any other orientation. */
  function Orient(orientation: string, w: Number, h: Number, unit: string): Dims
  {
    if orientation == "portrait" then Dims(w, h, unit) else Dims(h, w, unit)
  }

  /** The page dimensions the custom tab asks for, or None when it asks for none. */
  function ResolveDimensions(o: Options): (r: Option<Dims>)
    ensures o.dimensions == "custom" ==> r.Some? && r.value.unit == o.units
    ensures o.dimensions != "custom" && r.Some? ==> KnownUnit(r.value.unit)
  {
    if o.dimensions == "custom" then
      Some(Orient(o.orientation, Float(o.width), Float(o.height), o.units))
    else Named(o.orientation, LookupPaper(o.dimensions))
  }

  /** The dimensions of a named size, given what the table lookup found. */
  function Named(orientation: string, paper: Option<PaperSize>): (r: Option<Dims>)
    ensures r.Some? <==> paper.Some?
    ensures r.Some? ==> KnownUnit(r.value.unit)
  {
    match paper
    case None => None
    case Some(p) => Some(Orient(orientation, p.width, p.height, UnitName(p.unit)))
  }

  /** Custom dimensions: `W x H unit` in portrait, `H x W unit` otherwise. */
  lemma CustomDimensions(o: Options)
    requires o.dimensions == "custom"
    ensures o.orientation == "portrait" ==>
      ResolveDimensions(o) == Some(Dims(Float(o.width), Float(o.height), o.units))
    ensures o.orientation != "portrait" ==>
      ResolveDimensions(o) == Some(Dims(Float(o.height), Float(o.width), o.units))
  {
  }

  /**
   * A named size found in the table gives that entry's dimensions, swapped
   * unless `portrait`; a name the table lacks gives no dimensions at all.
   */
  lemma NamedDimensions(o: Options)
    requires o.dimensions != "custom"
    ensures ResolveDimensions(o).Some? <==> exists e :: e in PaperSizes && e.0 == o.dimensions
    ensures ResolveDimensions(o).Some? ==>
      exists p :: (o.dimensions, p) in PaperSizes &&
        ResolveDimensions(o) == Some(Orient(o.orientation, p.width, p.height, UnitName(p.unit)))
  {
    match LookupPaper(o.dimensions)
    case None =>
    case Some(p) =>
      assert (o.dimensions, p) in PaperSizes;
  }

  /** A named size is never wider than high in portrait, never higher than wide otherwise. */
  lemma NamedDimensionsUpright(o: Options)
    requires o.dimensions != "custom"
    ensures ResolveDimensions(o).Some? ==>
      var d := ResolveDimensions(o).value;
      && (if o.orientation == "portrait" then Value(d.width) <= Value(d.height)
          else Value(d.width) >= Value(d.height))
      && KnownUnit(d.unit)
  {
  }

  // ------------------------------------------------------------------------
  // Command-line flags

  /** A ` --name="value"` flag or a bare ` --name=value` flag. */
  datatype Flag = Quoted(name: string, value: string) | Bare(name: string, value: string)

  function FlagText(f: Flag): string
  {
    match f
    case Quoted(n, v) => " --" + n + "=" + "\"" + v + "\""
    case Bare(n, v) => " --" + n + "=" + v
  }

  /** The flags written one after the other. */
  function Render(fs: seq<Flag>): string
  {
    if fs == [] then "" else FlagText(fs[0]) + Render(fs[1..])
  }

  lemma {:induction false} RenderAppend(a: seq<Flag>, b: seq<Flag>)
    ensures Render(a + b) == Render(a) + Render(b)
  {
    if a == [] {
      assert a + b == b;
    } else {
      assert (a + b)[1..] == a[1..] + b;
      RenderAppend(a[1..], b);
    }
  }

  /**
   * How a reader of the command line splits a run of flags: each starts with
   * ` --` and a name up to `=`; a quoted value runs to the next `"`, a bare
   * one to the end.
   */
  function ParseFlags(s: string): Option<seq<Flag>>
    decreases |s|, 0
  {
    if s == [] then Some([])
    else if |s| < 3 || s[..3] != " --" then None
    else
      var eq := IndexOf(s[3..], '=');
      if eq == |s| - 3 then None
      else ParseValue(s[3..3 + eq], s[4 + eq..])
  }

  /** The value of the flag named `name`, then the flags after it. */
  function ParseValue(name: string, after: string): Option<seq<Flag>>
    decreases |after|, 1
  {
    if after == [] || after[0] != '"' then Some([Bare(name, after)])
    else
      var q := IndexOf(after[1..], '"');
      if q == |after| - 1 then None
      else
        match ParseFlags(after[q + 2..])
        case None => None
        case Some(fs) => Some([Quoted(name, after[1..q + 1])] + fs)
  }

  /** Flags a reader can split back: names without `=`, values without `"`, a bare flag only last. */
  predicate Readable(fs: seq<Flag>)
  {
    && (forall i :: 0 <= i < |fs| ==> '=' !in fs[i].name && '"' !in fs[i].value)
    && (forall i :: 0 <= i < |fs| - 1 ==> fs[i].Quoted?)
  }

  /** Reading a flag: its name is everything up to the first `=`. */
  lemma ParseName(n: string, after: string)
    requires '=' !in n
    ensures ParseFlags(" --" + n + "=" + after) == ParseValue(n, after)
  {
    var s := " --" + n + "=" + after;
    assert s[3..] == n + ['='] + after;
    IndexOfFirst(n, '=', after);
    assert s[3..3 + |n|] == n;
    assert s[4 + |n|..] == after;
  }

  /** Reading one quoted flag: its name and value, then the flags after it. */
  lemma ParseQuoted(n: string, v: string, tail: string)
    requires '=' !in n && '"' !in v
    ensures ParseFlags(FlagText(Quoted(n, v)) + tail) ==
      match ParseFlags(tail)
      case None => None
      case Some(fs) => Some([Quoted(n, v)] + fs)
  {
    var after := "\"" + v + "\"" + tail;
    assert FlagText(Quoted(n, v)) + tail == " --" + n + "=" + after;
    ParseName(n, after);
    ParseQuotedValue(n, v, tail);
  }

  /** A quoted value runs to the next `"`; the flags after it follow. */
  lemma ParseQuotedValue(n: string, v: string, tail: string)
    requires '"' !in v
    ensures ParseValue(n, "\"" + v + "\"" + tail) ==
      match ParseFlags(tail)
      case None => None
      case Some(fs) => Some([Quoted(n, v)] + fs)
  {
    var after := "\"" + v + "\"" + tail;
    assert after[1..] == v + ['"'] + tail;
    IndexOfFirst(v, '"', tail);
    assert after[1..|v| + 1] == v;
    assert after[|v| + 2..] == tail;
  }

  /** Reading a bare flag that ends the text: its name and the rest as value. */
  lemma ParseBare(n: string, v: string)
    requires '=' !in n && '"' !in v
    ensures ParseFlags(FlagText(Bare(n, v))) == Some([Bare(n, v)])
  {
    assert FlagText(Bare(n, v)) == " --" + n + "=" + v;
    ParseName(n, v);
    assert v == [] || v[0] != '"';
  }

  /** Dropping the first flag keeps flags readable. */
  lemma ReadableTail(fs: seq<Flag>)
    requires Readable(fs) && fs != []
    ensures Readable(fs[1..])
    ensures '=' !in fs[0].name && '"' !in fs[0].value
    ensures fs[0].Bare? ==> fs == [Bare(fs[0].name, fs[0].value)]
  {
  }

  /** Reading back rendered flags gives the same flags. */
  lemma {:induction false} ParseRender(fs: seq<Flag>)
    requires Readable(fs)
    ensures ParseFlags(Render(fs)) == Some(fs)
  {
    if fs != [] {
      ReadableTail(fs);
      if fs[0].Quoted? {
        ParseRender(fs[1..]);
        RenderQuotedFirst(fs);
      } else {
        RenderBareOnly(fs[0].name, fs[0].value);
      }
    }
  }

  /** A bare flag on its own is read back. */
  lemma RenderBareOnly(n: string, v: string)
    requires '=' !in n && '"' !in v
    ensures ParseFlags(Render([Bare(n, v)])) == Some([Bare(n, v)])
  {
    var fs := [Bare(n, v)];
    assert fs[1..] == [];
    assert Render(fs) == FlagText(Bare(n, v)) + Render([]);
    assert FlagText(Bare(n, v)) + "" == FlagText(Bare(n, v));
    ParseBare(n, v);
  }

  /** A quoted first flag is read back in front of whatever its tail reads back as. */
  lemma RenderQuotedFirst(fs: seq<Flag>)
    requires fs != [] && fs[0].Quoted? && '=' !in fs[0].name && '"' !in fs[0].value
    requires ParseFlags(Render(fs[1..])) == Some(fs[1..])
    ensures ParseFlags(Render(fs)) == Some(fs)
  {
    var f := fs[0];
    ParseQuoted(f.name, f.value, Render(fs[1..]));
    assert [f] + fs[1..] == fs;
  }

  /** The value of the first flag named `name`. */
  function FlagValue(fs: seq<Flag>, name: string): Option<string>
  {
    if fs == [] then None
    else if fs[0].name == name then Some(fs[0].value)
    else FlagValue(fs[1..], name)
  }

  /** Looking a name up in two runs of flags: the first run wins. */
  lemma {:induction false} FlagValueAppend(a: seq<Flag>, b: seq<Flag>, name: string)
    ensures FlagValue(a + b, name) == if FlagValue(a, name).Some? then FlagValue(a, name) else FlagValue(b, name)
  {
    if a == [] {
      assert a + b == b;
    } else {
      assert (a + b)[1..] == a[1..] + b;
      FlagValueAppend(a[1..], b, name);
    }
  }

  /** The text of a `--dimensions` value: `<width>x<height><unit>`. */
  function DimsText(d: Dims, floatStr: real -> string): string
  {
    Text(d.width, floatStr) + "x" + Text(d.height, floatStr) + d.unit
  }

  /** The `--dimensions` flag for the resolved dimensions, if any. */
  function DimensionsFlags(dims: Option<Dims>, floatStr: real -> string): seq<Flag>
  {
    match dims
    case None => []
    case Some(d) => [Quoted("dimensions", DimsText(d, floatStr))]
  }

  /** The `--background` flag: the chosen colour for `custom`, `none` for `none`. */
  function BackgroundFlags(o: Options): seq<Flag>
  {
    if o.background == "custom" then [Quoted("background", o.backgroundColor)]
    else if o.background == "none" then [Quoted("background", o.background)]
    else []
  }

  /** The `--colors` flag, only for custom foreground colours. */
  function ColorsFlags(o: Options): seq<Flag>
  {
    if o.foreground == "custom" then [Quoted("colors", o.foregroundColors)] else []
  }

  /**
   * The flags of the custom tab for the page dimensions `dims`, in the
   * order the extension concatenates them.
   */
  function FlagsFor(o: Options, dims: Option<Dims>, floatStr: real -> string): seq<Flag>
  {
    DimensionsFlags(dims, floatStr) + BackgroundFlags(o) + ColorsFlags(o)
      + [Bare("pressure-factor", floatStr(o.pressureFactor))]
  }

  /** The flags of the custom tab. */
  function CustomFlags(o: Options, floatStr: real -> string): seq<Flag>
  {
    FlagsFor(o, ResolveDimensions(o), floatStr)
  }

  /** The position of each flag in the fixed order of the custom tab. */
  function Rank(name: string): nat
  {
    if name == "dimensions" then 0
    else if name == "background" then 1
    else if name == "colors" then 2
    else 3
  }

  /**
   * The custom tab's flags come in the order dimensions, background, colors,
   * pressure factor, each at most once, and the pressure factor is always last.
   */
  lemma CustomFlagsOrder(o: Options, dims: Option<Dims>, floatStr: real -> string)
    ensures var fs := FlagsFor(o, dims, floatStr);
      && 1 <= |fs| <= 4
      && fs[|fs| - 1] == Bare("pressure-factor", floatStr(o.pressureFactor))
      && forall i, j :: 0 <= i < j < |fs| ==> Rank(fs[i].name) < Rank(fs[j].name)
  {
    Ranks();
  }

  /** The four names of the custom tab's flags, ranked. */
  lemma Ranks()
    ensures Rank("dimensions") == 0 && Rank("background") == 1
    ensures Rank("colors") == 2 && Rank("pressure-factor") == 3
  {
  }

  /** Looking a name up in the custom tab's flags, part by part. */
  lemma CustomFlagValue(o: Options, dims: Option<Dims>, floatStr: real -> string, name: string)
    ensures FlagValue(FlagsFor(o, dims, floatStr), name) ==
      var d := FlagValue(DimensionsFlags(dims, floatStr), name);
      var b := FlagValue(BackgroundFlags(o), name);
      var c := FlagValue(ColorsFlags(o), name);
      if d.Some? then d else if b.Some? then b else if c.Some? then c
      else FlagValue([Bare("pressure-factor", floatStr(o.pressureFactor))], name)
  {
    var ds, bs, cs := DimensionsFlags(dims, floatStr), BackgroundFlags(o), ColorsFlags(o);
    var ps := [Bare("pressure-factor", floatStr(o.pressureFactor))];
    FlagValueAppend(ds + bs + cs, ps, name);
    FlagValueAppend(ds + bs, cs, name);
    FlagValueAppend(ds, bs, name);
  }

  /**
   * The background flag: the background color for `custom`, `none` for
   * `none`, and no flag for any other background choice, whatever the
   * page dimensions.
   */
  lemma BackgroundFlagValue(o: Options, dims: Option<Dims>, floatStr: real -> string)
    ensures var v := FlagValue(FlagsFor(o, dims, floatStr), "background");
      && (o.background == "custom" ==> v == Some(o.backgroundColor))
      && (o.background == "none" ==> v == Some("none"))
      && (o.background != "custom" && o.background != "none" ==> v == None)
  {
    CustomFlagValue(o, dims, floatStr, "background");
  }

  /** The colors flag carries the foreground colors for `custom` and is absent otherwise. */
  lemma ColorsFlagValue(o: Options, dims: Option<Dims>, floatStr: real -> string)
    ensures var v := FlagValue(FlagsFor(o, dims, floatStr), "colors");
      && (o.foreground == "custom" ==> v == Some(o.foregroundColors))
      && (o.foreground != "custom" ==> v == None)
  {
    CustomFlagValue(o, dims, floatStr, "colors");
  }

  /** The pressure factor is always passed on, whatever its value. */
  lemma PressureFlagValue(o: Options, dims: Option<Dims>, floatStr: real -> string)
    ensures FlagValue(FlagsFor(o, dims, floatStr), "pressure-factor") == Some(floatStr(o.pressureFactor))
  {
    CustomFlagValue(o, dims, floatStr, "pressure-factor");
  }

  /** The `--dimensions` flag is present exactly when there are dimensions, and carries them. */
  lemma DimensionsFlagValue(o: Options, dims: Option<Dims>, floatStr: real -> string)
    ensures var v := FlagValue(FlagsFor(o, dims, floatStr), "dimensions");
      && (dims.None? ==> v == None)
      && (dims.Some? ==> v == Some(DimsText(dims.value, floatStr)))
  {
    CustomFlagValue(o, dims, floatStr, "dimensions");
  }

  // ------------------------------------------------------------------------
  // The command line

  /** The file options that end every command: `--file "<infile>" --direct-output`. */
  function FileOptions(infile: string): string
  {
    " --file \"" + infile + "\" --direct-output"
  }

  /** The command `input` hands to `run_direct`. */
  function Command(o: Options, infile: string, floatStr: real -> string): (r: string)
    ensures |r| >= |HelperApp| + |FileOptions(infile)|
    ensures r[..|HelperApp|] == HelperApp
    ensures r[|r| - |FileOptions(infile)|..] == FileOptions(infile)
  {
    var flags := if o.tab == CustomTab then Render(CustomFlags(o, floatStr)) else "";
    Framed(HelperApp, flags, FileOptions(infile));
    HelperApp + flags + FileOptions(infile)
  }

  /** The front and the back of a concatenation of three strings. */
  lemma Framed(front: string, middle: string, back: string)
    ensures var r := front + middle + back;
      r[..|front|] == front && r[|r| - |back|..] == back
  {
  }

  /** The default tab, and any tab the extension does not know, import without flags. */
  lemma DefaultTabCommand(o: Options, infile: string, floatStr: real -> string)
    requires o.tab != CustomTab
    ensures Command(o, infile, floatStr) == "inklingreader --file \"" + infile + "\" --direct-output"
  {
    var empty: string := [];
    assert Command(o, infile, floatStr) == HelperApp + empty + FileOptions(infile);
    assert HelperApp + empty == HelperApp;
    assert HelperApp + " --file \"" == "inklingreader --file \"";
  }

  /** Option values a reader can recover from the command line: none of them holds a `"`. */
  ghost predicate QuoteFree(o: Options, floatStr: real -> string)
  {
    && '"' !in o.units && '"' !in o.backgroundColor && '"' !in o.foregroundColors
    && forall x :: '"' !in floatStr(x)
  }

  /** Quoted flags with names free of `=` and values free of `"`. */
  predicate CleanQuoted(fs: seq<Flag>)
  {
    forall i :: 0 <= i < |fs| ==> fs[i].Quoted? && '=' !in fs[i].name && '"' !in fs[i].value
  }

  /** Dimensions whose unit holds no `"`. */
  predicate DimsQuoteFree(dims: Option<Dims>)
  {
    dims.Some? ==> '"' !in dims.value.unit
  }

  /** No unit name of the paper table holds a `"`. */
  lemma NamedClean(orientation: string, paper: Option<PaperSize>)
    ensures DimsQuoteFree(Named(orientation, paper))
  {
  }

  /** The resolved dimensions hold no `"` when the custom unit holds none. */
  lemma ResolvedQuoteFree(o: Options)
    requires '"' !in o.units
    ensures DimsQuoteFree(ResolveDimensions(o))
  {
    if o.dimensions != "custom" {
      NamedClean(o.orientation, LookupPaper(o.dimensions));
    }
  }

  /** The dimensions flag holds no `"` when neither the unit nor the printed numbers do. */
  lemma DimensionsFlagsClean(dims: Option<Dims>, floatStr: real -> string)
    requires DimsQuoteFree(dims) && forall x :: '"' !in floatStr(x)
    ensures CleanQuoted(DimensionsFlags(dims, floatStr))
  {
    if dims.Some? {
      var d := dims.value;
      assert '"' !in Text(d.width, floatStr) && '"' !in Text(d.height, floatStr);
      assert '"' !in DimsText(d, floatStr);
    }
  }

  /** The background and colors flags hold no `"` when the chosen colors hold none. */
  lemma ChoiceFlagsClean(o: Options)
    requires '"' !in o.backgroundColor && '"' !in o.foregroundColors
    ensures CleanQuoted(BackgroundFlags(o)) && CleanQuoted(ColorsFlags(o))
  {
    assert '=' !in "background" && '=' !in "colors" && '"' !in "none";
  }

  /** No value of the custom tab's flags holds a `"` when the options hold none. */
  lemma CustomFlagsReadable(o: Options, dims: Option<Dims>, floatStr: real -> string)
    requires QuoteFree(o, floatStr) && DimsQuoteFree(dims)
    ensures Readable(FlagsFor(o, dims, floatStr))
  {
    var ds, bs, cs := DimensionsFlags(dims, floatStr), BackgroundFlags(o), ColorsFlags(o);
    DimensionsFlagsClean(dims, floatStr);
    ChoiceFlagsClean(o);
    var qs := ds + bs + cs;
    assert CleanQuoted(qs);
    var fs := qs + [Bare("pressure-factor", floatStr(o.pressureFactor))];
    assert fs == FlagsFor(o, dims, floatStr);
    assert forall i :: 0 <= i < |fs| - 1 ==> fs[i] == qs[i];
  }

  /** A command line made of the program name, rendered flags and the file options. */
  lemma CommandShape(fs: seq<Flag>, infile: string)
    requires Readable(fs)
    ensures var r := HelperApp + Render(fs) + FileOptions(infile);
      var tail := FileOptions(infile);
      && |r| >= |HelperApp| + |tail|
      && r[..|HelperApp|] == HelperApp
      && r[|r| - |tail|..] == tail
      && ParseFlags(r[|HelperApp|..|r| - |tail|]) == Some(fs)
  {
    var r := HelperApp + Render(fs) + FileOptions(infile);
    var tail := FileOptions(infile);
    assert r[..|HelperApp|] == HelperApp;
    assert r[|r| - |tail|..] == tail;
    assert r[|HelperApp|..|r| - |tail|] == Render(fs);
    ParseRender(fs);
  }

  /**
   * In the custom tab the command is the program name, then the custom
   * flags, then the file options; read back, the flags between the program
   * name and ` --file` are exactly the custom tab's flags.
   */
  lemma CustomTabCommand(o: Options, infile: string, floatStr: real -> string)
    requires o.tab == CustomTab && QuoteFree(o, floatStr)
    ensures var r := Command(o, infile, floatStr);
      var tail := FileOptions(infile);
      && |r| >= |HelperApp| + |tail|
      && r[..|HelperApp|] == HelperApp
      && r[|r| - |tail|..] == tail
      && ParseFlags(r[|HelperApp|..|r| - |tail|]) == Some(CustomFlags(o, floatStr))
  {
    ResolvedQuoteFree(o);
    CustomFlagsReadable(o, ResolveDimensions(o), floatStr);
    CommandShape(CustomFlags(o, floatStr), infile);
  }

  // ------------------------------------------------------------------------
  // Running the command (`run_direct`)

  /** How starting and waiting for the command ended. */
  datatype Spawn =
    | Exited(rc: int, err: string)  // the process ran; its return code and captured stderr
    | PopenMissing                  // importing `subprocess.Popen` failed
    | Raised(reason: string)        // starting the process raised an exception

  /** The extension's own exit: status and what it wrote to stderr. */
  datatype Exit = Exit(status: int, stderr: string)

  /** Python's message for the unbound `rc` read after a failed import. */
  const UnboundRc: string := "local variable 'rc' referenced before assignment"

  /**
   * The exit decision of `run_direct`: exit 0 and silence when the command
   * returned 0, otherwise exit 1 with a message on stderr.
   */
  function RunDirect(progName: string, spawn: Spawn): (e: Exit)
    ensures e.status == 0 <==> spawn.Exited? && spawn.rc == 0
    ensures e.status == 0 ==> e.stderr == ""
    ensures e.status != 0 ==> e.status == 1 && |e.stderr| > 0
    ensures spawn.Exited? && spawn.rc != 0 ==>
      e.stderr == progName + " failed:\n" + spawn.err + "\n" + "\n"
    ensures spawn.Raised? ==>
      e.stderr == "Error attempting to run " + progName + ": " + spawn.reason + "\n"
  {
    var msg: Option<string> :=
      match spawn
      case Exited(rc, err) => if rc != 0 then Some(progName + " failed:\n" + err + "\n") else None
      case PopenMissing => Some("Error attempting to run " + progName + ": " + UnboundRc)
      case Raised(reason) => Some("Error attempting to run " + progName + ": " + reason);
    match msg
    case None => Exit(0, "")
    case Some(m) => Exit(1, m + "\n")
  }

  /**
   * `input`: build the command and run it; `run` stands for the process the
   * command starts.
   */
  function Input(o: Options, infile: string, floatStr: real -> string, run: string -> Spawn): (e: Exit)
    ensures var spawn := run(Command(o, infile, floatStr));
      e.status == (if spawn.Exited? && spawn.rc == 0 then 0 else 1)
  {
    RunDirect(HelperApp, run(Command(o, infile, floatStr)))
  }
}

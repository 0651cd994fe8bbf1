/**
 * Model of src/datatypes/configuration.c: the `dt_configuration` record,
 * its colour parser, its cleanup, page dimensions (scanned or named after a
 * preset) and the reading of a configuration file line by line.
 *
 * The record is a class whose methods update its fields in place; each
 * method is specified by a function on the record's value (`Config`), and
 * the properties are lemmas about those functions.
 */
module Configuration {
  import opened Strings
  import opened ColorLists
  import InkscapeImport

  // ------------------------------------------------------------------------
  // The colours of a configuration (`dt_configuration_parse_colors`)

  /**
   * The strings `dt_configuration_parse_colors` stores, in slot order: the
   * text before each comma, while that text is not empty. An empty piece
   * stops the split, and everything from its comma on becomes the last
   * string; otherwise a non-empty remainder after the last comma is the
   * last string.
   */
  function DtPieces(s: string): (r: seq<string>)
    ensures r == [] <==> s == []
    ensures forall i :: 0 <= i < |r| ==> r[i] != []
    ensures forall i :: 0 <= i < |r| - 1 ==> ',' !in r[i]
    decreases |s|
  {
    var k := IndexOf(s, ',');
    IndexOfNone(s, ',');
    if k == |s| then (if s == [] then [] else [s])
    else if k == 0 then [s]
    else [s[..k]] + DtPieces(s[k + 1..])
  }

  /** The colour slots: one per comma plus one, filled in order, the rest NULL. */
  function DtSlots(s: string): seq<Option<string>>
  {
    Filled(CountChar(s, ',') + 1, DtPieces(s))
  }

  /** `n` slots holding `p` in order, the rest NULL. */
  function Filled(n: nat, p: seq<string>): seq<Option<string>>
  {
    seq(n, i requires 0 <= i => if i < |p| then Some(p[i]) else None)
  }

  /** Storing one more string fills the next slot. */
  lemma FilledNext(n: nat, p: seq<string>, x: string)
    requires |p| < n
    ensures Filled(n, p + [x]) == Filled(n, p)[|p| := Some(x)]
  {
  }

  /** There are never more stored strings than slots, and none is empty. */
  lemma {:induction false} DtPiecesBound(s: string)
    ensures |DtPieces(s)| <= CountChar(s, ',') + 1
    ensures forall i :: 0 <= i < |DtPieces(s)| ==> DtPieces(s)[i] != []
    decreases |s|
  {
    var k := IndexOf(s, ',');
    if 0 < k < |s| {
      DtPiecesBound(s[k + 1..]);
      assert s == s[..k] + [','] + s[k + 1..];
      CountCharAppend(s[..k] + [','], s[k + 1..], ',');
      CountCharAppend(s[..k], [','], ',');
    }
  }

  /** One piece of the colour loop: the text before the next comma, when it is not empty. */
  lemma DtPiecesStep(s: string, k: nat)
    requires 0 < k < |s| && k == IndexOf(s, ',')
    ensures DtPieces(s) == [s[..k]] + DtPieces(s[k + 1..])
  {
  }

  /** The colour loop's invariant survives one more stored piece. */
  lemma {:induction false} DtStep(data: string, last: nat, k: nat, done: seq<string>, last': nat, done': seq<string>)
    requires last + k < |data| && 0 < k && k == IndexOf(data[last..], ',')
    requires DtPieces(data) == done + DtPieces(data[last..])
    requires last' == last + k + 1 && done' == done + [data[last..last + k]]
    ensures DtPieces(data) == done' + DtPieces(data[last'..])
    ensures |DtPieces(data)| > |done|
  {
    var tail := data[last..];
    SliceOfSlice(data, last, k);
    DtPiecesStep(tail, k);
    Regroup(DtPieces(data), done, DtPieces(tail), tail[..k], DtPieces(tail[k + 1..]));
  }

  /** Cutting a suffix of `data` at `k` cuts `data` itself `last` further on. */
  lemma SliceOfSlice(data: string, last: nat, k: nat)
    requires last + k < |data|
    ensures data[last..][..k] == data[last..last + k]
    ensures data[last..][k + 1..] == data[last + k + 1..]
  {
  }

  /** Where the colour loop stops, the rest is stored whole when it is not empty. */
  lemma DtLast(rest: string, k: nat)
    requires k == IndexOf(rest, ',') && (k == |rest| || k == 0)
    ensures DtPieces(rest) == if |rest| > 0 then [rest] else []
  {
  }

  /** The number of slots of a joined list is the number of pieces. */
  lemma JoinCount(pieces: seq<string>)
    requires |pieces| >= 1
    requires forall i :: 0 <= i < |pieces| ==> ',' !in pieces[i]
    ensures CountChar(Join(pieces), ',') + 1 == |pieces|
  {
    SplitJoin(pieces);
    SplitLength(Join(pieces));
  }

  /**
   * What `dt_configuration_parse_colors` stores for comma-free pieces
   * written with commas between them, where `j` is the first empty piece
   * (or `|pieces|` when none is empty): the pieces before `j`, then, when an
   * empty piece comes before the last one, the rest of the text from its
   * comma on.
   */
  lemma {:induction false} DtPiecesJoin(pieces: seq<string>, j: nat)
    requires |pieces| >= 1 && j <= |pieces|
    requires forall i :: 0 <= i < |pieces| ==> ',' !in pieces[i]
    requires forall i :: 0 <= i < j ==> pieces[i] != []
    requires j < |pieces| ==> pieces[j] == []
    ensures DtPieces(Join(pieces)) ==
      pieces[..j] + (if j < |pieces| - 1 then ["," + Join(pieces[j + 1..])] else [])
    decreases |pieces|, 1
  {
    if |pieces| == 1 {
      assert IndexOf(Join(pieces), ',') == |Join(pieces)|;
    } else if j == 0 {
      JoinFirst(pieces);
      assert Join(pieces) == "," + Join(pieces[1..]);
    } else {
      DtPiecesJoinStep(pieces, j);
    }
  }

  /** The induction step of `DtPiecesJoin`: a non-empty first piece, then the rest. */
  lemma {:induction false} DtPiecesJoinStep(pieces: seq<string>, j: nat)
    requires |pieces| > 1 && 0 < j <= |pieces|
    requires forall i :: 0 <= i < |pieces| ==> ',' !in pieces[i]
    requires forall i :: 0 <= i < j ==> pieces[i] != []
    requires j < |pieces| ==> pieces[j] == []
    ensures DtPieces(Join(pieces)) ==
      pieces[..j] + (if j < |pieces| - 1 then ["," + Join(pieces[j + 1..])] else [])
    decreases |pieces|, 0
  {
    var rest := pieces[1..];
    DtPiecesCons(pieces);
    RestOfPieces(pieces, j);
    DtPiecesJoin(rest, j - 1);
    var tail := if j < |pieces| - 1 then ["," + Join(pieces[j + 1..])] else [];
    assert tail == if j - 1 < |rest| - 1 then ["," + Join(rest[j..])] else [];
    ConsPrefix(pieces, j, DtPieces(Join(pieces)), DtPieces(Join(rest)), tail);
  }

  /** The pieces after the first meet the conditions of `DtPiecesJoin` one place earlier. */
  lemma RestOfPieces(pieces: seq<string>, j: nat)
    requires |pieces| > 1 && 0 < j <= |pieces|
    requires forall i :: 0 <= i < |pieces| ==> ',' !in pieces[i]
    requires forall i :: 0 <= i < j ==> pieces[i] != []
    requires j < |pieces| ==> pieces[j] == []
    ensures var rest := pieces[1..];
      && (forall i :: 0 <= i < |rest| ==> ',' !in rest[i])
      && (forall i :: 0 <= i < j - 1 ==> rest[i] != [])
      && (j - 1 < |rest| ==> rest[j - 1] == [])
      && (j < |pieces| - 1 ==> rest[j..] == pieces[j + 1..])
  {
    var rest := pieces[1..];
    assert forall i :: 0 <= i < |rest| ==> rest[i] == pieces[i + 1];
  }

  /** `x` is the first piece before `y`, and `y` the next `j - 1` pieces before `tail`. */
  lemma ConsPrefix(pieces: seq<string>, j: nat, x: seq<string>, y: seq<string>, tail: seq<string>)
    requires 0 < j <= |pieces|
    requires x == [pieces[0]] + y && y == pieces[1..][..j - 1] + tail
    ensures x == pieces[..j] + tail
  {
    assert pieces[..j] == [pieces[0]] + pieces[1..][..j - 1];
  }

  /** A non-empty first piece is stored first, then the rest is split on. */
  lemma DtPiecesCons(pieces: seq<string>)
    requires |pieces| > 1 && ',' !in pieces[0] && pieces[0] != []
    ensures DtPieces(Join(pieces)) == [pieces[0]] + DtPieces(Join(pieces[1..]))
  {
    JoinFirst(pieces);
    DtPiecesStep(Join(pieces), |pieces[0]|);
  }

  /** The first of several comma-free pieces ends at the first comma of their join. */
  lemma JoinFirst(pieces: seq<string>)
    requires |pieces| > 1 && ',' !in pieces[0]
    ensures Join(pieces) == pieces[0] + [','] + Join(pieces[1..])
    ensures IndexOf(Join(pieces), ',') == |pieces[0]|
    ensures Join(pieces)[..|pieces[0]|] == pieces[0]
    ensures Join(pieces)[|pieces[0]| + 1..] == Join(pieces[1..])
  {
    var s, p := Join(pieces), pieces[0];
    assert s == p + [','] + Join(pieces[1..]);
    IndexOfFirst(p, ',', Join(pieces[1..]));
  }

  /**
   * The slots for pieces without empty ones: every slot holds its piece,
   * in order, so this parser and `high_parse_colors` agree.
   */
  lemma DtSlotsWithoutEmpty(s: string)
    requires forall i :: 0 <= i < |Split(s)| ==> Split(s)[i] != []
    ensures |DtSlots(s)| == |Split(s)|
    ensures forall i :: 0 <= i < |Split(s)| ==> DtSlots(s)[i] == Some(Split(s)[i])
  {
    var pieces := Split(s);
    JoinSplit(s);
    SplitCommaFree(s);
    SplitLength(s);
    DtPiecesJoin(pieces, |pieces|);
    assert pieces[..|pieces|] == pieces;
  }

  /**
   * An empty piece `j` before the last one (a leading comma or two commas
   * in a row) stops the split: the slots before it hold their pieces, slot
   * `j` holds the rest of the text from that comma on, and every later slot
   * stays NULL.
   */
  lemma DtSlotsEmptySegment(pieces: seq<string>, j: nat)
    requires j < |pieces| - 1
    requires forall i :: 0 <= i < |pieces| ==> ',' !in pieces[i]
    requires forall i :: 0 <= i < j ==> pieces[i] != []
    requires pieces[j] == []
    ensures |DtSlots(Join(pieces))| == |pieces|
    ensures forall i :: 0 <= i < j ==> DtSlots(Join(pieces))[i] == Some(pieces[i])
    ensures DtSlots(Join(pieces))[j] == Some("," + Join(pieces[j + 1..]))
    ensures forall i :: j < i < |pieces| ==> DtSlots(Join(pieces))[i] == None
  {
    JoinCount(pieces);
    DtPiecesJoin(pieces, j);
  }

  /** A trailing comma leaves the last slot NULL. */
  lemma {:induction false} DtTrailingComma(s: string)
    requires s != [] && s[|s| - 1] == ','
    ensures |DtPieces(s)| <= CountChar(s, ',')
    ensures DtSlots(s)[CountChar(s, ',')] == None
    decreases |s|
  {
    var k := IndexOf(s, ',');
    IndexOfNone(s, ',');
    assert s == s[..k] + [','] + s[k + 1..];
    CountCharAppend(s[..k] + [','], s[k + 1..], ',');
    CountCharAppend(s[..k], [','], ',');
    if k == 0 {
      if |s| > 1 {
        assert s[|s| - 1] in s[k + 1..];
      }
    } else if k < |s| - 1 {
      var rest := s[k + 1..];
      assert rest[|rest| - 1] == ',';
      DtTrailingComma(rest);
    }
  }

  /** The index of the first empty piece, or `|pieces|` when none is empty. */
  function FirstEmpty(pieces: seq<string>): (j: nat)
    ensures j <= |pieces| && (j < |pieces| ==> pieces[j] == [])
    ensures forall i :: 0 <= i < j ==> pieces[i] != []
  {
    if pieces == [] then 0
    else if pieces[0] == [] then 0
    else 1 + FirstEmpty(pieces[1..])
  }

  /**
   * The two colour parsers agree on every slot exactly when no piece of
   * the text is empty.
   */
  lemma ParsersAgree(s: string)
    ensures |DtSlots(s)| == |Split(s)|
    ensures (forall i :: 0 <= i < |Split(s)| ==> DtSlots(s)[i] == Some(Split(s)[i])) <==>
            (forall i :: 0 <= i < |Split(s)| ==> Split(s)[i] != [])
  {
    var pieces := Split(s);
    SplitLength(s);
    var j := FirstEmpty(pieces);
    if j < |pieces| {
      JoinSplit(s);
      SplitCommaFree(s);
      DtPiecesJoin(pieces, j);
      if j < |pieces| - 1 {
        assert DtSlots(s)[j] == Some("," + Join(pieces[j + 1..]));
      } else {
        assert DtSlots(s)[j] == None;
      }
      assert DtSlots(s)[j] != Some(pieces[j]);
    } else {
      DtSlotsWithoutEmpty(s);
    }
  }

  /**
   * The walk of `dt_configuration_parse_colors` over the text, from comma
   * to comma, into `count` fresh NULL slots: each non-empty piece is
   * stored; an empty piece ends the walk, and a non-empty remainder fills
   * the next slot.
   */
  method FillSlots(data: string, count: int) returns (slots: seq<Option<string>>)
    requires count == CountChar(data, ',') + 1
    ensures slots == DtSlots(data)
  {
    DtPiecesBound(data);
    slots := seq(count, _ => None);
    var last := 0;
    var index := 0;
    ghost var done: seq<string> := [];
    assert data[last..] == data;
    assert slots == Filled(count, done);
    while true
      invariant 0 <= last <= |data| && index == |done|
      invariant DtPieces(data) == done + DtPieces(data[last..])
      invariant slots == Filled(count, done)
      decreases |data| - last
    {
      var k := IndexOf(data[last..], ',');
      if k == |data| - last || k == 0 {
        DtLast(data[last..], k);
        break;
      }
      ghost var done' := done + [data[last..last + k]];
      var last' := last + k + 1;
      DtStep(data, last, k, done, last', done');
      FilledNext(count, done, data[last..last + k]);
      slots := slots[index := Some(data[last..last + k])];
      done, index, last := done', index + 1, last';
    }
    if |data| - last > 0 {
      FilledNext(count, done, data[last..]);
      slots := slots[index := Some(data[last..])];
      done := done + [data[last..]];
    } else {
      assert done + [] == done;
    }
  }

  // ------------------------------------------------------------------------
  // Preset page sizes (`dt_configuration_parse_preset_dimensions`)

  /** One named page size, in the table's unit. */
  datatype Preset = Preset(name: string, width: real, height: real, unit: string)

  // The table as the source lists it, in three consecutive parts.
  const PresetsAsWritten0: seq<Preset> := [
    Preset("A4", 210.0, 297.0, "mm"),
    Preset("US Letter", 216.0, 297.4, "mm"),
    Preset("US Legal", 216.0, 355.6, "mm"),
    Preset("US Executive", 184.2, 266.7, "mm"),
    Preset("A0", 841.0, 1189.0, "mm"),
    Preset("A1", 594.0, 841.0, "mm"),
    Preset("A2", 420.0, 594.0, "mm"),
    Preset("A3", 297.0, 420.0, "mm"),
    Preset("A5", 148.0, 210.0, "mm"),
    Preset("A6", 105.0, 148.0, "mm"),
    Preset("A7", 74.0, 105.0, "mm"),
    Preset("A8", 52.0, 74.0, "mm"),
    Preset("A9", 37.0, 52.0, "mm")
  ]

  const PresetsAsWritten1: seq<Preset> := [
    Preset("A10", 26.0, 37.0, "mm"),
    Preset("B0", 1000.0, 1414.0, "mm"),
    Preset("B1", 707.0, 1000.0, "mm"),
    Preset("B2", 500.0, 707.0, "mm"),
    Preset("B3", 353.0, 500.0, "mm"),
    Preset("B4", 250.0, 353.0, "mm"),
    Preset("B5", 176.0, 250.0, "mm"),
    Preset("B6", 125.0, 176.0, "mm"),
    Preset("B7", 88.0, 125.0, "mm"),
    Preset("B8", 62.0, 88.0, "mm"),
    Preset("B9", 44.0, 62.0, "mm"),
    Preset("B10", 31.0, 44.0, "mm"),
    Preset("C0", 917.0, 1297.0, "mm")
  ]

  const PresetsAsWritten2: seq<Preset> := [
    Preset("C1", 648.0, 917.0, "mm"),
    Preset("C2", 458.0, 648.0, "mm"),
    Preset("C3", 324.0, 458.0, "mm"),
    Preset("C4", 229.0, 324.0, "mm"),
    Preset("C5", 162.0, 229.0, "mm"),
    Preset("C6", 114.0, 162.0, "mm"),
    Preset("C7", 81.0, 114.0, "mm"),
    Preset("C8", 57.0, 81.0, "mm"),
    Preset("C9", 40.0, 57.0, "mm"),
    Preset("C10", 28.0, 40.0, "mm")
  ]

  /** The preset table exactly as the source writes it: the one every lookup searches. */
  const PresetsAsWritten: seq<Preset> := PresetsAsWritten0 + PresetsAsWritten1 + PresetsAsWritten2

  /** US Letter is 11 inches high: 279.4 mm, where the source writes 297.4. */
  const Letter: Preset := Preset("US Letter", 216.0, 279.4, "mm")

  /** The first part of the table with US Letter corrected. */
  const CorrectedPresets0: seq<Preset> := PresetsAsWritten0[1 := Letter]

  /** The source's preset table with US Letter corrected; the lookups use the table as written. */
  const CorrectedPresets: seq<Preset> := CorrectedPresets0 + PresetsAsWritten1 + PresetsAsWritten2

  /** A page size that is in millimetres and higher than it is wide. */
  predicate UprightMm(p: Preset)
  {
    p.unit == "mm" && p.width < p.height
  }

  lemma PresetsAsWritten0Upright() ensures forall p | p in PresetsAsWritten0 :: UprightMm(p) {}
  lemma PresetsAsWritten1Upright() ensures forall p | p in PresetsAsWritten1 :: UprightMm(p) {}
  lemma PresetsAsWritten2Upright() ensures forall p | p in PresetsAsWritten2 :: UprightMm(p) {}
  lemma Presets0Upright() ensures forall p | p in CorrectedPresets0 :: UprightMm(p) {}

  /** Every preset, as written and as corrected, is in millimetres and higher than wide. */
  lemma PresetsUpright()
    ensures forall p | p in PresetsAsWritten :: UprightMm(p)
    ensures forall p | p in CorrectedPresets :: UprightMm(p)
  {
    PresetsAsWritten0Upright();
    PresetsAsWritten1Upright();
    PresetsAsWritten2Upright();
    Presets0Upright();
  }

  /** Millimetres in one unit of Inkscape's table. */
  function MmPer(unit: string): real
  {
    if unit == "in" then 25.4 else 1.0
  }

  /** Two lengths in millimetres within a tenth of a millimetre of each other. */
  predicate Near(a: real, b: real)
  {
    -0.1 <= a - b <= 0.1
  }

  /** A preset has the name and, to a tenth of a millimetre, the size of an Inkscape entry. */
  predicate Agrees(p: Preset, e: (string, InkscapeImport.PaperSize))
  {
    && p.name == e.0
    && Near(p.width, InkscapeImport.Value(e.1.width) * MmPer(InkscapeImport.UnitName(e.1.unit)))
    && Near(p.height, InkscapeImport.Value(e.1.height) * MmPer(InkscapeImport.UnitName(e.1.unit)))
  }

  /**
   * The source's preset table lists the first 36 sizes Inkscape knows, in
   * the same order, but its US Letter height is 18 mm more than the
   * 11 inches Inkscape gives.
   */
  lemma LetterAsWritten()
    ensures PresetsAsWritten[1].name == InkscapeImport.PaperSizes[1].0 == "US Letter"
    ensures InkscapeImport.PaperSizes[1].1 == InkscapeImport.PaperSize(InkscapeImport.Float(8.5), InkscapeImport.Int(11), InkscapeImport.In)
    ensures PresetsAsWritten[1].height - InkscapeImport.Value(InkscapeImport.PaperSizes[1].1.height) * MmPer("in") == 18.0
    ensures !Agrees(PresetsAsWritten[1], InkscapeImport.PaperSizes[1])
  {
    assert InkscapeImport.PaperSizes[1] == InkscapeImport.PaperSizes0[1];
  }

  lemma Presets0Agree()
    ensures forall i | 0 <= i < |CorrectedPresets0| :: Agrees(CorrectedPresets0[i], InkscapeImport.PaperSizes0[i])
  {
  }

  lemma Presets1Agree()
    ensures forall i | 0 <= i < |PresetsAsWritten1| :: Agrees(PresetsAsWritten1[i], InkscapeImport.PaperSizes1[i])
  {
  }

  lemma Presets2Agree()
    ensures forall i | 0 <= i < |PresetsAsWritten2| :: Agrees(PresetsAsWritten2[i], InkscapeImport.PaperSizes2[i])
  {
  }

  /** With US Letter corrected, every preset agrees with the Inkscape entry at its place. */
  lemma PresetsAgree()
    ensures |CorrectedPresets| == 36 <= |InkscapeImport.PaperSizes|
    ensures forall i | 0 <= i < |CorrectedPresets| :: Agrees(CorrectedPresets[i], InkscapeImport.PaperSizes[i])
  {
    Presets0Agree();
    Presets1Agree();
    Presets2Agree();
    var ink := InkscapeImport.PaperSizes;
    assert ink == InkscapeImport.PaperSizes0 + InkscapeImport.PaperSizes1 +
      (InkscapeImport.PaperSizes2 + InkscapeImport.PaperSizes3 + InkscapeImport.PaperSizes4);
    forall i | 0 <= i < |CorrectedPresets|
      ensures Agrees(CorrectedPresets[i], ink[i])
    {
      if i < 13 {
        assert CorrectedPresets[i] == CorrectedPresets0[i] && ink[i] == InkscapeImport.PaperSizes0[i];
      } else if i < 26 {
        assert CorrectedPresets[i] == PresetsAsWritten1[i - 13] && ink[i] == InkscapeImport.PaperSizes1[i - 13];
      } else {
        assert CorrectedPresets[i] == PresetsAsWritten2[i - 26] && ink[i] == InkscapeImport.PaperSizes2[i - 26];
      }
    }
  }

  /** The first entry of `table` named `name` (`strcmp`, so exact and case-sensitive). */
  function PresetIndex(table: seq<Preset>, name: string): (r: Option<nat>)
    ensures r.Some? ==> r.value < |table| && table[r.value].name == name
    ensures r.Some? ==> forall j :: 0 <= j < r.value ==> table[j].name != name
    ensures r.None? ==> forall j :: 0 <= j < |table| ==> table[j].name != name
  {
    if table == [] then None
    else if table[0].name == name then Some(0)
    else match PresetIndex(table[1..], name)
      case None => None
      case Some(k) => Some(k + 1)
  }

  // ------------------------------------------------------------------------
  // The record

  /** The value of a `dt_configuration` with its `dt_page_dimensions`. */
  datatype Config = Config(
    numColors: int,
    pressureFactor: real,
    colors: seq<Option<string>>,
    background: Option<string>,
    width: real,
    height: real,
    measurement: Option<string>,
    orientation: Option<string>,
    configLocation: Option<string>)

  /** A zero-filled record, as a static `dt_configuration` starts. */
  const Zero: Config := Config(0, 0.0, [], None, 0.0, 0.0, None, None, None)

  /** The colour count matches the colour slots. */
  predicate Valid(c: Config)
  {
    c.numColors == |c.colors|
  }

  /** The record after `dt_configuration_parse_colors(data)`. */
  function WithColors(c: Config, data: string): Config
  {
    c.(numColors := CountChar(data, ',') + 1, colors := DtSlots(data))
  }

  /** The record after `dt_configuration_cleanup`. */
  function Cleaned(c: Config): Config
  {
    var c' := if c.numColors > 0 then c.(colors := [], numColors := 0) else c;
    c'.(measurement := None, orientation := None, background := None, configLocation := None)
  }

  /**
   * The unit after `strncpy(measurement, "mm", 2)`: a new three-byte buffer
   * reads "mm"; an existing one has its first two characters replaced.
   */
  function MmUnit(m: Option<string>): string
  {
    match m
    case None => "mm"
    case Some(u) => "mm" + (if |u| > 2 then u[2..] else [])
  }

  /** The record after `dt_configuration_parse_dimensions(NULL)`. */
  function WithDefaultDimensions(c: Config): Config
  {
    c.(width := if c.width == 0.0 then 210.0 else c.width,
       height := if c.height == 0.0 then 297.0 else c.height,
       measurement := Some(MmUnit(c.measurement)))
  }

  /**
   * The record after looking `name` up in the preset table as written: a
   * name that no preset has changes nothing; otherwise only the size and
   * the unit change, and the unit becomes "mm".
   */
  function WithPreset(c: Config, name: string): (r: Config)
    ensures (forall j :: 0 <= j < |PresetsAsWritten| ==> PresetsAsWritten[j].name != name) ==> r == c
    ensures r == c || r.measurement == Some("mm")
    ensures r.(width := c.width, height := c.height, measurement := c.measurement) == c
  {
    match PresetIndex(PresetsAsWritten, name)
    case None => c
    case Some(i) =>
      PresetUnit(i);
      c.(width := PresetsAsWritten[i].width, height := PresetsAsWritten[i].height, measurement := Some(PresetsAsWritten[i].unit[..2]))
  }

  /**
   * What `sscanf(data, "%lfx%lf%s", ...)` did: how many conversions it
   * assigned (its return value) and the values it read, in order.
   */
  datatype DimScan = DimScan(stored: int, width: real, height: real, unit: string)

  /**
   * The record after a scan: the fields the scan assigned; when it did not
   * assign all three, the text is then looked up as a preset name.
   */
  function WithScan(c: Config, data: string, r: DimScan): (d: Config)
    ensures r.stored == 3 ==> d == c.(width := r.width, height := r.height, measurement := Some(r.unit))
    ensures d.(width := c.width, height := c.height, measurement := c.measurement) == c
  {
    var c1 := if r.stored >= 1 then c.(width := r.width) else c;
    var c2 := if r.stored >= 2 then c1.(height := r.height) else c1;
    var c3 := if r.stored >= 3 then c2.(measurement := Some(r.unit)) else c2;
    if r.stored != 3 then WithPreset(c3, data) else c3
  }

  /** The record after `dt_configuration_parse_dimensions(data)`; `scan` stands for `sscanf`. */
  function WithDimensions(c: Config, data: Option<string>, scan: string -> DimScan): Config
  {
    match data
    case None => WithDefaultDimensions(c)
    case Some(d) => WithScan(c, d, scan(d))
  }

  // ------------------------------------------------------------------------
  // One line of a configuration file (`dt_configuration_parse`)

  const ColorsKey: string := "colors = "
  const BackgroundKey: string := "background = "
  const PressureKey: string := "pressure-factor = "
  const DimensionsKey: string := "dimensions = "

  /** What one line sets: the key found first in the test order, and the text handed on. */
  datatype Entry =
    | ColorsEntry(value: string)
    | BackgroundEntry(value: string)
    | PressureEntry(value: string)
    | DimensionsEntry(value: string)
    | NoEntry

  /** Where the line is cut: its first `\r`, else its first `\n`, else its end. */
  function Cut(l: string): (r: nat)
    ensures r <= |l|
    ensures r < |l| ==> l[r] == '\r' || l[r] == '\n'
    ensures '\r' in l ==> r < |l| && l[r] == '\r' && '\r' !in l[..r]
    ensures '\r' !in l ==> r == IndexOf(l, '\n')
  {
    var c := IndexOf(l, '\r');
    IndexOfNone(l, '\r');
    if c < |l| then c else IndexOf(l, '\n')
  }

  /** The C string at `at` once the line's cut has been overwritten by a NUL. */
  function ValueAt(l: string, at: nat): string
    requires at <= |l|
  {
    var buf := if Cut(l) < |l| then l[Cut(l) := '\0'] else l;
    CString(buf[at..])
  }

  /** The value runs from its start to the cut, or to the end when the cut lies before it. */
  lemma ValueAtText(l: string, at: nat)
    requires at <= |l| && '\0' !in l
    ensures ValueAt(l, at) == if at <= Cut(l) then l[at..Cut(l)] else l[at..]
  {
    var k := Cut(l);
    var buf := if k < |l| then l[k := '\0'] else l;
    if at <= k {
      assert buf[at..][..k - at] == l[at..k];
      assert forall x :: x in l[at..k] ==> x in l;
      CStringEndsAt(buf[at..], k - at);
    } else {
      assert buf[at..] == l[at..];
      assert forall x :: x in l[at..] ==> x in l;
      CStringEndsAt(buf[at..], |buf| - at);
    }
  }

  /**
   * The entry one line sets: the keys are tested in the order colours,
   * background, pressure factor, dimensions, each anywhere in the line, and
   * the value starts 9, 13, 17 and 13 characters after its key.
   */
  function LineEntry(line: string): (r: Entry)
    ensures !r.NoEntry? ==> '\0' !in r.value && |r.value| <= |line|
  {
    var l := CString(line);
    match Find(l, ColorsKey)
    case Some(loc) => ColorsEntry(ValueAt(l, loc + 9))
    case None =>
      match Find(l, BackgroundKey)
      case Some(loc) => BackgroundEntry(ValueAt(l, loc + 13))
      case None =>
        match Find(l, PressureKey)
        case Some(loc) => PressureEntry(ValueAt(l, loc + 17))
        case None =>
          match Find(l, DimensionsKey)
          case Some(loc) => DimensionsEntry(ValueAt(l, loc + 13))
          case None => NoEntry
  }

  /** Only the first key in the test order counts; a line with none sets nothing. */
  lemma LineEntryOrder(line: string)
    ensures var l := CString(line);
      && (LineEntry(line).ColorsEntry? <==> Find(l, ColorsKey).Some?)
      && (LineEntry(line).BackgroundEntry? <==> Find(l, ColorsKey).None? && Find(l, BackgroundKey).Some?)
      && (LineEntry(line).PressureEntry? <==>
            Find(l, ColorsKey).None? && Find(l, BackgroundKey).None? && Find(l, PressureKey).Some?)
      && (LineEntry(line).DimensionsEntry? <==>
            Find(l, ColorsKey).None? && Find(l, BackgroundKey).None? && Find(l, PressureKey).None? &&
            Find(l, DimensionsKey).Some?)
      && (LineEntry(line).NoEntry? <==>
            forall j :: !OccursAt(l, ColorsKey, j) && !OccursAt(l, BackgroundKey, j) &&
                        !OccursAt(l, PressureKey, j) && !OccursAt(l, DimensionsKey, j))
  {
    var l := CString(line);
    if !LineEntry(line).NoEntry? {
      var key := match LineEntry(line)
        case ColorsEntry(_) => ColorsKey
        case BackgroundEntry(_) => BackgroundKey
        case PressureEntry(_) => PressureKey
        case _ => DimensionsKey;
      assert Find(l, key).Some?;
      assert OccursAt(l, key, Find(l, key).value);
    }
  }

  /** A text line ending: nothing, `\n` or `\r\n`. */
  predicate LineEnd(e: string)
  {
    e == "" || e == "\n" || e == "\r\n"
  }

  /** A value without a line break or NUL in it. */
  predicate Plain(v: string)
  {
    '\r' !in v && '\n' !in v && '\0' !in v
  }

  /** A text without line breaks, then a line ending, is cut where the ending starts. */
  lemma CutAtLineEnd(p: string, e: string)
    requires '\r' !in p && '\n' !in p && LineEnd(e)
    ensures Cut(p + e) == |p|
  {
    if e == "" {
      assert p + e == p;
    } else if e == "\n" {
      IndexOfFirst(p, '\n', "");
      assert p + e == p + ['\n'] + "";
      assert '\r' !in p + e;
    } else {
      IndexOfFirst(p, '\r', "\n");
      assert p + e == p + ['\r'] + "\n";
    }
  }

  /** A pattern is found at the front of any text that starts with it. */
  lemma FindAtFront(key: string, rest: string)
    ensures Find(key + rest, key) == Some(0)
  {
    assert (key + rest)[0..|key|] == key;
  }

  /** A line that starts with `key` reads back everything between the key and the line ending. */
  lemma KeyLineValue(key: string, v: string, e: string)
    requires key != [] && '\0' !in key && '\r' !in key && '\n' !in key
    requires Plain(v) && LineEnd(e)
    ensures var l := key + v + e;
      CString(l) == l && Find(l, key) == Some(0) && ValueAt(l, |key|) == v
  {
    var p := key + v;
    var l := p + e;
    assert l == key + (v + e);
    FindAtFront(key, v + e);
    assert '\0' !in p && '\r' !in p && '\n' !in p;
    assert '\0' !in e;
    CStringEndsAt(l, |l|);
    CutAtLineEnd(p, e);
    ValueAtText(l, |key|);
    assert l[|key|..|p|] == v;
  }

  /** `colors = <v>` sets the colours to `v`. */
  lemma ColorsLine(v: string, e: string)
    requires Plain(v) && LineEnd(e)
    ensures LineEntry(ColorsKey + v + e) == ColorsEntry(v)
  {
    KeyLineValue(ColorsKey, v, e);
  }

  /** `background = <v>` sets the background to `v`, unless the line also holds the colours key. */
  lemma BackgroundLine(v: string, e: string)
    requires Plain(v) && LineEnd(e)
    requires Find(BackgroundKey + v + e, ColorsKey).None?
    ensures LineEntry(BackgroundKey + v + e) == BackgroundEntry(v)
  {
    KeyLineValue(BackgroundKey, v, e);
  }

  /**
   * `pressure-factor = <v>` hands `atof` the text from the space after `=`:
   * the offset 17 is one short of the key's 18 characters, so the value
   * keeps that space.
   */
  lemma PressureLine(v: string, e: string)
    requires Plain(v) && LineEnd(e)
    requires Find(PressureKey + v + e, ColorsKey).None? && Find(PressureKey + v + e, BackgroundKey).None?
    ensures LineEntry(PressureKey + v + e) == PressureEntry(" " + v)
  {
    var key := "pressure-factor =";
    PressureKeyParts(key);
    SpacedKeyLine(PressureKey, key, v, e);
    PressureEntryAt(PressureKey + v + e);
  }

  /**
   * A line that starts with a key ending in a space, read from just before
   * that space, gives the space and everything up to the line ending.
   */
  lemma SpacedKeyLine(spaced: string, key: string, v: string, e: string)
    requires spaced == key + " " && key != [] && Plain(key)
    requires Plain(v) && LineEnd(e)
    ensures var l := spaced + v + e;
      CString(l) == l && Find(l, spaced) == Some(0) && ValueAt(l, |key|) == " " + v
  {
    var l := spaced + v + e;
    assert l == key + (" " + v) + e;
    KeyLineValue(key, " " + v, e);
    assert l == spaced + (v + e);
    FindAtFront(spaced, v + e);
  }

  /** The pressure key is 17 plain characters and a space. */
  lemma PressureKeyParts(key: string)
    requires key == "pressure-factor ="
    ensures PressureKey == key + " " && |key| == 17 && key != [] && Plain(key)
  {
  }

  /** A line that holds neither earlier key and starts with the pressure key. */
  lemma PressureEntryAt(l: string)
    requires CString(l) == l
    requires Find(l, ColorsKey).None? && Find(l, BackgroundKey).None? && Find(l, PressureKey) == Some(0)
    ensures LineEntry(l) == PressureEntry(ValueAt(l, 17))
  {
  }

  /** `dimensions = <v>` hands `v` to the dimensions parser, unless an earlier key is in the line. */
  lemma DimensionsLine(v: string, e: string)
    requires Plain(v) && LineEnd(e)
    requires var l := DimensionsKey + v + e;
      Find(l, ColorsKey).None? && Find(l, BackgroundKey).None? && Find(l, PressureKey).None?
    ensures LineEntry(DimensionsKey + v + e) == DimensionsEntry(v)
  {
    KeyLineValue(DimensionsKey, v, e);
  }

  /** The record after one line; `atof` and `scan` stand for the C library's number readers. */
  function WithLine(c: Config, line: string, atof: string -> real, scan: string -> DimScan): Config
  {
    match LineEntry(line)
    case ColorsEntry(v) => WithColors(c, v)
    case BackgroundEntry(v) => c.(background := Some(v))
    case PressureEntry(v) => c.(pressureFactor := atof(v))
    case DimensionsEntry(v) => WithDimensions(c, Some(v), scan)
    case NoEntry => c
  }

  /** The record after the lines, read in order. */
  function WithLines(c: Config, lines: seq<string>, atof: string -> real, scan: string -> DimScan): Config
  {
    if lines == [] then c
    else WithLine(WithLines(c, lines[..|lines| - 1], atof, scan), lines[|lines| - 1], atof, scan)
  }

  /**
   * The record after `dt_configuration_parse`: `file` holds the lines of the
   * file, or is None when the file is missing or cannot be opened.
   */
  function WithFile(c: Config, file: Option<seq<string>>, atof: string -> real, scan: string -> DimScan): Config
  {
    match file
    case None => c
    case Some(lines) => WithLines(c, lines, atof, scan)
  }

  // ------------------------------------------------------------------------
  // Properties of the record operations

  /** Parsing colours sets one slot per comma plus one and keeps the record valid. */
  lemma ColorsValid(c: Config, data: string)
    ensures Valid(WithColors(c, data))
    ensures WithColors(c, data).numColors == CountChar(data, ',') + 1
    ensures WithColors(c, data).(numColors := c.numColors, colors := c.colors) == c
  {
  }

  /**
   * Cleanup of a valid record empties the colours, clears the four strings
   * and keeps the numbers; a second cleanup changes nothing.
   */
  lemma CleanupResets(c: Config)
    requires Valid(c)
    ensures var d := Cleaned(c);
      && d.numColors == 0 && d.colors == [] && Valid(d)
      && d.measurement.None? && d.orientation.None? && d.background.None? && d.configLocation.None?
      && d.pressureFactor == c.pressureFactor && d.width == c.width && d.height == c.height
    ensures Cleaned(Cleaned(c)) == Cleaned(c)
  {
  }

  /**
   * Without dimension text, a zero width becomes 210 and a zero height 297,
   * other values stay, and a missing or short unit becomes "mm"; a second
   * call changes nothing more.
   */
  lemma DefaultDimensions(c: Config)
    ensures var d := WithDefaultDimensions(c);
      && (d.width == if c.width == 0.0 then 210.0 else c.width)
      && (d.height == if c.height == 0.0 then 297.0 else c.height)
      && d.width != 0.0 && d.height != 0.0
      && ((c.measurement.None? || |c.measurement.value| <= 2) ==> d.measurement == Some("mm"))
      && d.(width := c.width, height := c.height, measurement := c.measurement) == c
    ensures (c.measurement.None? || |c.measurement.value| <= 2) ==>
      WithDefaultDimensions(WithDefaultDimensions(c)) == WithDefaultDimensions(c)
  {
    assert "mm" + [] == "mm";
    assert MmUnit(Some("mm")) == "mm";
  }

  /** The first entry with a name is the one `PresetIndex` finds. */
  lemma FirstPreset(table: seq<Preset>, name: string, i: nat)
    requires i < |table| && table[i].name == name
    requires forall j :: 0 <= j < i ==> table[j].name != name
    ensures PresetIndex(table, name) == Some(i)
  {
  }

  /** Every preset is in millimetres. */
  lemma PresetUnit(i: nat)
    requires i < |PresetsAsWritten|
    ensures PresetsAsWritten[i].unit == "mm" && PresetsAsWritten[i].unit[..2] == "mm"
  {
    PresetsUpright();
    assert PresetsAsWritten[i] in PresetsAsWritten;
  }

  /** A preset name copies the first matching entry's size and "mm". */
  lemma PresetLookup(c: Config, name: string, i: nat)
    requires i < |PresetsAsWritten| && PresetsAsWritten[i].name == name
    requires forall j :: 0 <= j < i ==> PresetsAsWritten[j].name != name
    ensures WithPreset(c, name) ==
      c.(width := PresetsAsWritten[i].width, height := PresetsAsWritten[i].height, measurement := Some("mm"))
  {
    FirstPreset(PresetsAsWritten, name, i);
    PresetUnit(i);
  }

  /**
   * The lookup follows the table as written: a "US Letter" page is 216 mm
   * wide and 297.4 mm high, not the 279.4 mm of 11 inches.
   */
  lemma LetterLookup(c: Config)
    ensures WithPreset(c, "US Letter") == c.(width := 216.0, height := 297.4, measurement := Some("mm"))
  {
    assert PresetsAsWritten[0] == PresetsAsWritten0[0] && PresetsAsWritten[1] == PresetsAsWritten0[1];
    PresetLookup(c, "US Letter", 1);
  }

  /**
   * A scan that does not assign all three fields falls back to the preset
   * table: a preset name overrides whatever the scan assigned.
   */
  lemma PartialScanPreset(c: Config, data: string, r: DimScan, i: nat)
    requires r.stored != 3
    requires i < |PresetsAsWritten| && PresetsAsWritten[i].name == data
    requires forall j :: 0 <= j < i ==> PresetsAsWritten[j].name != data
    ensures WithScan(c, data, r).width == PresetsAsWritten[i].width
    ensures WithScan(c, data, r).height == PresetsAsWritten[i].height
    ensures WithScan(c, data, r).measurement == Some("mm")
  {
    var c3 := WithScan(c, data, r);
    var c1 := if r.stored >= 1 then c.(width := r.width) else c;
    var c2 := if r.stored >= 2 then c1.(height := r.height) else c1;
    var c3' := if r.stored >= 3 then c2.(measurement := Some(r.unit)) else c2;
    PresetLookup(c3', data, i);
  }

  /** Reading one more line applies that line to the record read so far. */
  lemma LinesStep(c: Config, lines: seq<string>, i: nat, atof: string -> real, scan: string -> DimScan)
    requires i < |lines|
    ensures WithLines(c, lines[..i + 1], atof, scan) == WithLine(WithLines(c, lines[..i], atof, scan), lines[i], atof, scan)
  {
    assert lines[..i + 1][..i] == lines[..i];
  }

  /** Every line keeps the colour count matching the colour slots. */
  lemma {:induction false} LinesValid(c: Config, lines: seq<string>, atof: string -> real, scan: string -> DimScan)
    requires Valid(c)
    ensures Valid(WithLines(c, lines, atof, scan))
  {
    if lines != [] {
      LinesValid(c, lines[..|lines| - 1], atof, scan);
      LineValid(WithLines(c, lines[..|lines| - 1], atof, scan), lines[|lines| - 1], atof, scan);
    }
  }

  /** One line keeps the colour count matching the colour slots. */
  lemma LineValid(c: Config, line: string, atof: string -> real, scan: string -> DimScan)
    requires Valid(c)
    ensures Valid(WithLine(c, line, atof, scan))
  {
    match LineEntry(line)
    case ColorsEntry(v) => ColorsValid(c, v);
    case DimensionsEntry(v) => DimensionsKeepColors(c, Some(v), scan);
    case _ =>
  }

  /** Setting the dimensions leaves the colours alone. */
  lemma DimensionsKeepColors(c: Config, data: Option<string>, scan: string -> DimScan)
    ensures WithDimensions(c, data, scan).colors == c.colors
    ensures WithDimensions(c, data, scan).numColors == c.numColors
  {
  }

  /** Lines in which no key occurs leave the record as it was. */
  lemma {:induction false} KeylessLines(c: Config, lines: seq<string>, atof: string -> real, scan: string -> DimScan)
    requires forall i :: 0 <= i < |lines| ==> LineEntry(lines[i]) == NoEntry
    ensures WithLines(c, lines, atof, scan) == c
  {
    if lines != [] {
      KeylessLines(c, lines[..|lines| - 1], atof, scan);
    }
  }

  /** A later line with the same key wins over an earlier one. */
  lemma LaterBackgroundWins(c: Config, lines: seq<string>, v: string, atof: string -> real, scan: string -> DimScan)
    requires lines != [] && LineEntry(lines[|lines| - 1]) == BackgroundEntry(v)
    ensures WithLines(c, lines, atof, scan).background == Some(v)
  {
  }

  /** The search loop of `dt_configuration_parse_preset_dimensions`, stopping at the first match. */
  method FindPreset(table: seq<Preset>, name: string) returns (r: Option<nat>)
    ensures r == PresetIndex(table, name)
  {
    var a := 0;
    while a < |table|
      invariant 0 <= a <= |table|
      invariant forall j :: 0 <= j < a ==> table[j].name != name
    {
      if table[a].name == name {
        FirstPreset(table, name, a);
        return Some(a);
      }
      a := a + 1;
    }
    return None;
  }

  // ------------------------------------------------------------------------
  // The record as an object updated in place

  class Configuration {
    var numColors: int
    var pressureFactor: real
    var colors: seq<Option<string>>
    var background: Option<string>
    var width: real
    var height: real
    var measurement: Option<string>
    var orientation: Option<string>
    var configLocation: Option<string>

    /** The record's current value. */
    function State(): Config
      reads this
    {
      Config(numColors, pressureFactor, colors, background, width, height,
             measurement, orientation, configLocation)
    }

    /** A zero-filled record (the program's static `settings`). */
    constructor ()
      ensures State() == Zero && Valid(State())
    {
      numColors, pressureFactor, colors, background := 0, 0.0, [], None;
      width, height, measurement := 0.0, 0.0, None;
      orientation, configLocation := None, None;
    }

    /**
     * `dt_configuration_parse_colors`: count the commas, then walk the text
     * from comma to comma, storing each non-empty piece; an empty piece ends
     * the walk, and a non-empty remainder fills the next slot. `data` is a
     * C string, so it holds no NUL.
     */
    method ParseColors(data: string)
      requires '\0' !in data
      modifies this
      ensures State() == WithColors(old(State()), data)
    {
      var count := CountPieces(data);
      var slots := FillSlots(data, count);
      numColors := count;
      colors := slots;
    }

    /** `dt_configuration_cleanup`: drop the colours and the four strings. */
    method Cleanup()
      modifies this
      ensures State() == Cleaned(old(State()))
    {
      if numColors > 0 {
        // Each slot's string is freed before the slot array itself.
        colors := [];
        numColors := 0;
      }
      measurement := None;
      orientation := None;
      background := None;
      configLocation := None;
    }

    /** `dt_configuration_parse_preset_dimensions`: the first entry named `name`, if any. */
    method ParsePresetDimensions(name: string)
      modifies this
      ensures State() == WithPreset(old(State()), name)
    {
      var found := FindPreset(PresetsAsWritten, name);
      if found.Some? {
        var a := found.value;
        PresetUnit(a);
        width := PresetsAsWritten[a].width;
        height := PresetsAsWritten[a].height;
        measurement := Some(PresetsAsWritten[a].unit[..2]);
      }
    }

    /** `dt_configuration_parse_dimensions`; `scan` stands for `sscanf`. */
    method ParseDimensions(data: Option<string>, scan: string -> DimScan)
      modifies this
      ensures State() == WithDimensions(old(State()), data, scan)
    {
      match data
      case None =>
        if width == 0.0 {
          width := 210.0;
        }
        if height == 0.0 {
          height := 297.0;
        }
        measurement := Some(MmUnit(measurement));
      case Some(d) =>
        var r := scan(d);
        if r.stored >= 1 {
          width := r.width;
        }
        if r.stored >= 2 {
          height := r.height;
        }
        if r.stored >= 3 {
          measurement := Some(r.unit);
        }
        if r.stored != 3 {
          ParsePresetDimensions(d);
        }
    }

    /** The body of the line loop of `dt_configuration_parse`. */
    method ParseLine(line: string, atof: string -> real, scan: string -> DimScan)
      modifies this
      ensures State() == WithLine(old(State()), line, atof, scan)
    {
      match LineEntry(line)
      case ColorsEntry(v) => ParseColors(v);
      case BackgroundEntry(v) => background := Some(v);
      case PressureEntry(v) => pressureFactor := atof(v);
      case DimensionsEntry(v) => ParseDimensions(Some(v), scan);
      case NoEntry =>
    }

    /**
     * `dt_configuration_parse`: each line of the file in turn; a missing or
     * unreadable file (None) changes nothing.
     */
    method Parse(file: Option<seq<string>>, atof: string -> real, scan: string -> DimScan)
      modifies this
      ensures State() == WithFile(old(State()), file, atof, scan)
    {
      if file.Some? {
        var lines := file.value;
        var i := 0;
        while i < |lines|
          invariant 0 <= i <= |lines|
          invariant State() == WithLines(old(State()), lines[..i], atof, scan)
        {
          LinesStep(old(State()), lines, i, atof, scan);
          ParseLine(lines[i], atof, scan);
          i := i + 1;
        }
        assert lines[..i] == lines;
      }
    }
  }
}

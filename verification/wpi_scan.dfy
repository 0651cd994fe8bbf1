/**
 * The statistics pass of `parse_wpi` (src/parsers/wpi.c): one walk over the
 * bytes of a WPI file, starting after its 2060-byte header, that decodes pen
 * coordinates, skips the bytes that belong to a record and counts the tags
 * it meets in six counters.
 *
 * The walk is specified by `ScanFrom`, which names what the pass yields from
 * a given position on; `ParseWpi` is the C loop itself, proved against it.
 */
module WpiScan {

  /** An `unsigned char` of the file. */
  newtype byte = x: int | 0 <= x < 256

  /** Offset of the first byte the pass looks at: the header is skipped. */
  const Start: nat := 2060

  /** Record tags (the values `parse_wpi` switches on). */
  const PenTag: byte := 97
  const PressureTag: byte := 100
  const TiltTag: byte := 101
  const ObjectTag: byte := 128
  const StrokeTag: byte := 241
  const UnknownTags: set<byte> := {194, 197, 199}

  /** `dt_statistics`: six counters. */
  datatype Stats = Stats(objects: int, strokes: int, coordinates: int,
                         pressure: int, tilt: int, unknown: int)

  /** The counters after the `memset` to zero. */
  const NoStats := Stats(0, 0, 0, 0, 0, 0)

  /** The names of the six counters. */
  datatype Counter = Objects | Strokes | Coordinates | Pressure | Tilt | Unknown

  /** The value of one counter. */
  function Get(s: Stats, c: Counter): int
  {
    match c
    case Objects => s.objects
    case Strokes => s.strokes
    case Coordinates => s.coordinates
    case Pressure => s.pressure
    case Tilt => s.tilt
    case Unknown => s.unknown
  }

  /** A decoded pen position, as the pass prints it. */
  datatype Point = Point(x: int, y: int)

  /** What the pass yields: the counters and the printed coordinates. */
  datatype Scan = Scan(stats: Stats, points: seq<Point>)

  function Total(s: Stats): int
  {
    s.objects + s.strokes + s.coordinates + s.pressure + s.tilt + s.unknown
  }

  /** The `case` labels under which the switch increments counter `c`. */
  predicate Moves(tag: byte, c: Counter)
  {
    match c
    case Objects => tag == ObjectTag
    case Strokes => tag == StrokeTag
    case Coordinates => tag == PenTag
    case Pressure => tag == PressureTag
    case Tilt => tag == TiltTag
    case Unknown => tag in UnknownTags
  }

  /** How much examining `tag` adds to counter `c`. */
  function Hit(tag: byte, c: Counter): nat
  {
    if Moves(tag, c) then 1 else 0
  }

  /** The cases of the switch are disjoint: a tag moves at most one counter. */
  lemma MovesOne(tag: byte, c: Counter, c': Counter)
    requires Moves(tag, c) && Moves(tag, c')
    ensures c == c'
  {
  }

  /** Together the counters grow by at most one per examined tag. */
  lemma HitTotal(tag: byte)
    ensures Hit(tag, Objects) + Hit(tag, Strokes) + Hit(tag, Coordinates) +
            Hit(tag, Pressure) + Hit(tag, Tilt) + Hit(tag, Unknown) <= 1
  {
  }

  /** Where the walk goes after examining position `i`. */
  function Next(d: seq<byte>, i: nat): (j: nat)
    requires i < |d|
    ensures j > i
  {
    if d[i] == PenTag then i + 6
    else if d[i] == StrokeTag then i + 2
    else i + 1
  }

  /**
   * The bytes the record at `i` reads lie inside the file: a pen record has
   * its four coordinate bytes, a stroke record its size byte and the block of
   * that size. (C reads past the buffer otherwise.)
   */
  predicate RecordFits(d: seq<byte>, i: nat)
    requires i < |d|
  {
    if d[i] == PenTag then i + 5 < |d|
    else if d[i] == StrokeTag then i + 1 < |d| && i + 1 + d[i + 1] as int < |d|
    else true
  }

  /** Every record the walk meets from `i` on fits in the file. */
  predicate InBounds(d: seq<byte>, i: nat)
    decreases |d| - i
  {
    i >= |d| || (RecordFits(d, i) && InBounds(d, Next(d, i)))
  }

  /**
   * The coordinate of the pen record at `i`: X and Y are big-endian 16-bit
   * values, offset by 5, and Y is doubled first.
   */
  function Decode(d: seq<byte>, i: nat): (p: Point)
    requires i + 5 < |d|
    ensures 5 <= p.x <= 65540 && 5 <= p.y <= 131075
  {
    Point(d[i + 2] as int * 256 + d[i + 3] as int + 5,
          (d[i + 4] as int * 256 + d[i + 5] as int) * 2 + 5)
  }

  /** The four record bytes can be read back from the point: nothing is lost. */
  lemma DecodeRecovers(d: seq<byte>, i: nat)
    requires i + 5 < |d|
    ensures var p := Decode(d, i);
      (p.x - 5) / 256 == d[i + 2] as int && (p.x - 5) % 256 == d[i + 3] as int &&
      (p.y - 5) / 512 == d[i + 4] as int && (p.y - 5) / 2 % 256 == d[i + 5] as int &&
      p.y % 2 == 1
  {
  }

  /** The point printed when position `i` is examined: one for a pen record. */
  function PointAt(d: seq<byte>, i: nat): seq<Point>
    requires i < |d| && RecordFits(d, i)
  {
    if d[i] == PenTag then [Decode(d, i)] else []
  }

  /** How often the walk from `i` to the end of the file moves counter `c`. */
  function CountFrom(d: seq<byte>, i: nat, c: Counter): nat
    decreases |d| - i
  {
    if i >= |d| then 0 else Hit(d[i], c) + CountFrom(d, Next(d, i), c)
  }

  /** The points the walk from `i` to the end of the file prints, in order. */
  function PointsFrom(d: seq<byte>, i: nat): seq<Point>
    requires InBounds(d, i)
    decreases |d| - i
  {
    if i >= |d| then [] else PointAt(d, i) + PointsFrom(d, Next(d, i))
  }

  /** All six counters of the walk from `i`. */
  function CountsFrom(d: seq<byte>, i: nat): Stats
  {
    Stats(CountFrom(d, i, Objects), CountFrom(d, i, Strokes), CountFrom(d, i, Coordinates),
          CountFrom(d, i, Pressure), CountFrom(d, i, Tilt), CountFrom(d, i, Unknown))
  }

  /** What the walk yields from position `i` to the end of the file. */
  function ScanFrom(d: seq<byte>, i: nat): (r: Scan)
    requires InBounds(d, i)
    ensures |r.points| == r.stats.coordinates
    ensures AllInRange(r.points)
  {
    ScanPoints(d, i);
    Scan(CountsFrom(d, i), PointsFrom(d, i))
  }

  /** The positions the walk examines as tags, from `i` on. */
  function Visits(d: seq<byte>, i: nat): (vs: seq<nat>)
    ensures forall k :: 0 <= k < |vs| ==> i <= vs[k] < |d|
    decreases |d| - i
  {
    if i >= |d| then [] else [i] + Visits(d, Next(d, i))
  }

  /** How many of the positions `vs` hold a tag that moves counter `c`. */
  function CountIn(d: seq<byte>, vs: seq<nat>, c: Counter): nat
  {
    if vs == [] then 0
    else (if vs[0] < |d| then Hit(d[vs[0]], c) else 0) + CountIn(d, vs[1..], c)
  }

  /** Counting over the walk from `i`: the first position, then the rest. */
  lemma CountInStep(d: seq<byte>, i: nat, c: Counter)
    requires i < |d|
    ensures CountIn(d, Visits(d, i), c) == Hit(d[i], c) + CountIn(d, Visits(d, Next(d, i)), c)
  {
    var vs := Visits(d, i);
    assert vs[0] == i && vs[1..] == Visits(d, Next(d, i));
  }

  /**
   * `parse_wpi`'s loop over a file already read into memory. `count` is
   * advanced inside the body as in C: by 2, 2 and 1 for a pen record, by 1
   * for a stroke record, and by 1 more by the loop itself.
   */
  method ParseWpi(data: array<byte>) returns (stats: Stats, points: seq<Point>)
    requires InBounds(data[..], Start)
    ensures Scan(stats, points) == ScanFrom(data[..], Start)
    ensures |points| == stats.coordinates
    ensures forall k :: 0 <= k < |points| ==> InRange(points[k])
  {
    ghost var d := data[..];
    stats := NoStats;
    points := [];
    var count := Start;
    assert points + PointsFrom(d, count) == PointsFrom(d, Start);
    while count < data.Length
      invariant InBounds(d, count)
      invariant forall c :: Get(stats, c) + CountFrom(d, count, c) == CountFrom(d, Start, c)
      invariant points + PointsFrom(d, count) == PointsFrom(d, Start)
      decreases data.Length - count
    {
      ghost var i, before, done := count, stats, points;
      stats, points, count := Examine(data, stats, points, count);
      Advance(d, i, before, stats, done, points);
    }
    Finish(d, count, stats, points);
    ScanPoints(d, Start);
  }

  /** One turn of the loop: the `switch` on the byte at `count`. */
  method Examine(data: array<byte>, stats: Stats, points: seq<Point>, count: nat)
    returns (stats': Stats, points': seq<Point>, count': nat)
    requires count < data.Length && RecordFits(data[..], count)
    ensures forall c :: Get(stats', c) == Get(stats, c) + Hit(data[count], c)
    ensures points' == points + PointAt(data[..], count)
    ensures count' == Next(data[..], count)
  {
    stats', points', count' := stats, points, count;
    var tag := data[count'];
    if tag == PenTag {
      stats' := stats'.(coordinates := stats'.coordinates + 1);
      count' := count' + 2;
      var x := data[count'] as int * 256 + data[count' + 1] as int + 5;
      count' := count' + 2;
      var y := (data[count'] as int * 256 + data[count' + 1] as int) * 2 + 5;
      points' := points' + [Point(x, y)];
      count' := count' + 1;
    } else if tag == PressureTag {
      stats' := stats'.(pressure := stats'.pressure + 1);
    } else if tag == TiltTag {
      stats' := stats'.(tilt := stats'.tilt + 1);
    } else if tag == ObjectTag {
      stats' := stats'.(objects := stats'.objects + 1);
    } else if tag in UnknownTags {
      stats' := stats'.(unknown := stats'.unknown + 1);
    } else if tag == StrokeTag {
      stats' := stats'.(strokes := stats'.strokes + 1);
      count' := count' + 1;
      var blockSize := data[count'] as int;
      // The source's loop reads the block byte by byte, keeps nothing and
      // does not move the index past the size byte: it has no effect on the
      // result, and its invariant only keeps the reads within the array.
      var a := 0;
      while a < blockSize
        invariant 0 <= a <= blockSize
      {
        var block := data[count' + 1 + a];
        a := a + 1;
      }
    }
    count' := count' + 1;
  }

  /** One turn of the loop keeps its invariant. */
  lemma Advance(d: seq<byte>, i: nat, before: Stats, after: Stats, done: seq<Point>, now: seq<Point>)
    requires i < |d| && InBounds(d, i) && InBounds(d, Start)
    requires forall c :: Get(before, c) + CountFrom(d, i, c) == CountFrom(d, Start, c)
    requires done + PointsFrom(d, i) == PointsFrom(d, Start)
    requires forall c :: Get(after, c) == Get(before, c) + Hit(d[i], c)
    requires now == done + PointAt(d, i)
    ensures InBounds(d, Next(d, i))
    ensures forall c :: Get(after, c) + CountFrom(d, Next(d, i), c) == CountFrom(d, Start, c)
    ensures now + PointsFrom(d, Next(d, i)) == PointsFrom(d, Start)
  {
    forall c
      ensures Get(after, c) + CountFrom(d, Next(d, i), c) == CountFrom(d, Start, c)
    {
      assert CountFrom(d, i, c) == Hit(d[i], c) + CountFrom(d, Next(d, i), c);
    }
    PointsStep(done, PointAt(d, i), PointsFrom(d, Next(d, i)), PointsFrom(d, i));
  }

  lemma PointsStep(done: seq<Point>, here: seq<Point>, rest: seq<Point>, from: seq<Point>)
    requires from == here + rest
    ensures done + from == (done + here) + rest
  {
  }

  /** When the loop stops, the counters and points are those of the whole walk. */
  lemma Finish(d: seq<byte>, i: nat, s: Stats, ps: seq<Point>)
    requires i >= |d| && InBounds(d, Start)
    requires forall c :: Get(s, c) + CountFrom(d, i, c) == CountFrom(d, Start, c)
    requires ps + PointsFrom(d, i) == PointsFrom(d, Start)
    ensures Scan(s, ps) == ScanFrom(d, Start)
  {
    assert ps + [] == ps;
    assert Get(s, Objects) == CountFrom(d, Start, Objects);
    assert Get(s, Strokes) == CountFrom(d, Start, Strokes);
    assert Get(s, Coordinates) == CountFrom(d, Start, Coordinates);
    assert Get(s, Pressure) == CountFrom(d, Start, Pressure);
    assert Get(s, Tilt) == CountFrom(d, Start, Tilt);
    assert Get(s, Unknown) == CountFrom(d, Start, Unknown);
  }

  /** A coordinate a pen record can produce. */
  predicate InRange(p: Point)
  {
    5 <= p.x <= 65540 && 5 <= p.y <= 131075
  }

  predicate AllInRange(ps: seq<Point>)
  {
    forall k :: 0 <= k < |ps| ==> InRange(ps[k])
  }

  lemma AllInRangeAppend(a: seq<Point>, b: seq<Point>)
    requires AllInRange(a) && AllInRange(b)
    ensures AllInRange(a + b)
  {
    forall k | 0 <= k < |a + b|
      ensures InRange((a + b)[k])
    {
      if k >= |a| {
        assert (a + b)[k] == b[k - |a|];
      }
    }
  }

  /** Every printed coordinate is in range; one point per pen record. */
  lemma {:induction false} ScanPoints(d: seq<byte>, i: nat)
    requires InBounds(d, i)
    ensures |PointsFrom(d, i)| == CountFrom(d, i, Coordinates)
    ensures AllInRange(PointsFrom(d, i))
    decreases |d| - i
  {
    if i < |d| {
      ScanPoints(d, Next(d, i));
      AllInRangeAppend(PointAt(d, i), PointsFrom(d, Next(d, i)));
    }
  }

  /** Each counter is the number of examined positions holding one of its tags. */
  lemma {:induction false} ScanCounts(d: seq<byte>, i: nat, c: Counter)
    ensures CountFrom(d, i, c) == CountIn(d, Visits(d, i), c)
    decreases |d| - i
  {
    if i < |d| {
      ScanCounts(d, Next(d, i), c);
      CountInStep(d, i, c);
    }
  }

  /**
   * Since each examined position moves at most one counter, together the
   * counters never exceed the number of positions examined.
   */
  lemma {:induction false} ScanTotal(d: seq<byte>, i: nat)
    ensures Total(CountsFrom(d, i)) <= |Visits(d, i)|
    ensures i <= |d| ==> Total(CountsFrom(d, i)) <= |d| - i
    decreases |d| - i
  {
    VisitsBound(d, i);
    if i < |d| {
      var j := Next(d, i);
      ScanTotal(d, j);
      HitTotal(d[i]);
      assert |Visits(d, i)| == 1 + |Visits(d, j)|;
    }
  }

  /** The scan examines at most one position per byte from where it starts. */
  lemma {:induction false} VisitsBound(d: seq<byte>, i: nat)
    ensures i <= |d| ==> |Visits(d, i)| <= |d| - i
    ensures i >= |d| ==> Visits(d, i) == []
    decreases |d| - i
  {
    if i < |d| {
      VisitsBound(d, Next(d, i));
    }
  }

  /** A file no longer than its header yields no counts and no points. */
  lemma ShortFile(d: seq<byte>)
    requires |d| <= Start
    ensures InBounds(d, Start) && ScanFrom(d, Start) == Scan(NoStats, [])
  {
  }

  /**
   * The pass depends only on the bytes from `i` on: two files of the same
   * length that agree there give the same counters and points.
   */
  lemma {:induction false} OnlyLaterBytes(d: seq<byte>, e: seq<byte>, i: nat)
    requires |d| == |e| && forall j :: i <= j < |d| ==> d[j] == e[j]
    ensures InBounds(d, i) == InBounds(e, i)
    ensures forall c :: CountFrom(d, i, c) == CountFrom(e, i, c)
    ensures InBounds(d, i) ==> PointsFrom(d, i) == PointsFrom(e, i)
    decreases |d| - i
  {
    if i < |d| {
      var j := Next(d, i);
      assert j == Next(e, i);
      OnlyLaterBytes(d, e, j);
      if InBounds(d, i) {
        assert PointAt(d, i) == PointAt(e, i);
      }
    }
  }

  /** In particular the header bytes never affect the statistics. */
  lemma HeaderIgnored(d: seq<byte>, e: seq<byte>)
    requires |d| == |e| > Start && d[Start..] == e[Start..] && InBounds(d, Start)
    ensures InBounds(e, Start) && ScanFrom(d, Start) == ScanFrom(e, Start)
  {
    forall j | Start <= j < |d|
      ensures d[j] == e[j]
    {
      assert d[j] == d[Start..][j - Start];
    }
    OnlyLaterBytes(d, e, Start);
  }

  /**
   * Consecutive examined positions are one `Next` apart, so they increase:
   * the five bytes of a pen record and the size byte of a stroke record are
   * never examined as tags, while the block bytes after a stroke's size byte
   * are (the walk goes on at the position right after the size byte).
   */
  lemma {:induction false} VisitsStep(d: seq<byte>, i: nat)
    ensures var vs := Visits(d, i);
      (i < |d| ==> |vs| > 0 && vs[0] == i) &&
      forall k :: 0 <= k < |vs| - 1 ==> vs[k + 1] == Next(d, vs[k])
    decreases |d| - i
  {
    if i < |d| {
      var vs := Visits(d, i);
      VisitsStep(d, Next(d, i));
      assert vs[1..] == Visits(d, Next(d, i));
      if |Visits(d, Next(d, i))| > 0 {
        assert vs[1] == Next(d, i);
      }
    }
  }

  lemma {:induction false} VisitsIncreasing(d: seq<byte>, i: nat, k: nat, l: nat)
    requires k < l < |Visits(d, i)|
    ensures Next(d, Visits(d, i)[k]) <= Visits(d, i)[l]
    decreases l - k
  {
    var vs := Visits(d, i);
    VisitsStep(d, i);
    if l > k + 1 {
      VisitsIncreasing(d, i, k + 1, l);
    }
  }

  /** No byte of a pen record is read as a tag. */
  lemma PenRecordSkipped(d: seq<byte>, i: nat, k: nat, l: nat)
    requires k < |Visits(d, i)| && l < |Visits(d, i)|
    requires d[Visits(d, i)[k]] == PenTag
    ensures !(Visits(d, i)[k] < Visits(d, i)[l] < Visits(d, i)[k] + 6)
  {
    var vs := Visits(d, i);
    if l > k {
      VisitsIncreasing(d, i, k, l);
    } else if l < k {
      VisitsIncreasing(d, i, l, k);
    }
  }

  /**
   * After a stroke tag only its size byte is skipped: the next position
   * examined is the first byte of the block, whatever the block size.
   */
  lemma StrokeSkipsSizeOnly(d: seq<byte>, i: nat, k: nat)
    requires k < |Visits(d, i)| && d[Visits(d, i)[k]] == StrokeTag
    requires Visits(d, i)[k] + 2 < |d|
    ensures k + 1 < |Visits(d, i)| && Visits(d, i)[k + 1] == Visits(d, i)[k] + 2
  {
    VisitsStep(d, i);
    VisitsTail(d, i, k);
  }

  /** The walk from `i` goes on past every position it examines. */
  lemma {:induction false} VisitsTail(d: seq<byte>, i: nat, k: nat)
    requires k < |Visits(d, i)|
    ensures Visits(d, i)[k + 1..] == Visits(d, Next(d, Visits(d, i)[k]))
    decreases |d| - i
  {
    var vs := Visits(d, i);
    assert vs[0] == i && vs[1..] == Visits(d, Next(d, i));
    if k > 0 {
      VisitsTail(d, Next(d, i), k - 1);
      assert vs[k + 1..] == vs[1..][k..];
    }
  }
}

/**
 * Model of `high_parse_colors` (src/high/configuration.c), which splits a
 * comma-separated list of colors into its pieces, keeping empty pieces.
 */
module ColorLists {
  import opened Strings

  /** The comma-separated pieces of `s`, in order, empty pieces kept. */
  function Split(s: string): (r: seq<string>)
    ensures |r| >= 1
    decreases |s|
  {
    var k := IndexOf(s, ',');
    if k == |s| then [s] else [s[..k]] + Split(s[k + 1..])
  }

  /** There is one piece more than there are commas. */
  lemma {:induction false} SplitLength(s: string)
    ensures |Split(s)| == CountChar(s, ',') + 1
    decreases |s|
  {
    var k := IndexOf(s, ',');
    IndexOfNone(s, ',');
    if k < |s| {
      SplitLength(s[k + 1..]);
      CountAfterFirst(s, k);
    }
  }

  /** Past the first comma there is one comma fewer. */
  lemma {:induction false} CountAfterFirst(s: string, k: nat)
    requires k < |s| && s[k] == ',' && ',' !in s[..k]
    ensures CountChar(s, ',') == CountChar(s[k + 1..], ',') + 1
    decreases k
  {
    if k > 0 {
      assert s[1..][..k - 1] == s[1..k];
      assert s[0] == s[..k][0];
      CountAfterFirst(s[1..], k - 1);
      assert s[1..][k..] == s[k + 1..];
    }
  }

  /** No piece holds a comma. */
  lemma {:induction false} SplitCommaFree(s: string)
    ensures forall i :: 0 <= i < |Split(s)| ==> ',' !in Split(s)[i]
    decreases |s|
  {
    var k := IndexOf(s, ',');
    IndexOfNone(s, ',');
    if k < |s| {
      SplitCommaFree(s[k + 1..]);
    }
  }

  /** The pieces written back with a comma between each two. */
  function Join(pieces: seq<string>): (r: string)
    requires |pieces| >= 1
  {
    if |pieces| == 1 then pieces[0] else pieces[0] + "," + Join(pieces[1..])
  }

  /** Joining the pieces of a string gives the string back. */
  lemma {:induction false} JoinSplit(s: string)
    ensures Join(Split(s)) == s
    decreases |s|
  {
    var k := IndexOf(s, ',');
    if k < |s| {
      var rest := Split(s[k + 1..]);
      assert Split(s) == [s[..k]] + rest;
      JoinSplit(s[k + 1..]);
      JoinCons(s[..k], rest);
      AroundComma(s, k);
    }
  }

  /** A string is the text before one of its commas, the comma, and the text after. */
  lemma AroundComma(s: string, k: nat)
    requires k < |s| && s[k] == ','
    ensures s == s[..k] + "," + s[k + 1..]
  {
  }

  /** Joining a piece in front of other pieces puts a comma between them. */
  lemma JoinCons(p: string, rest: seq<string>)
    requires |rest| >= 1
    ensures Join([p] + rest) == p + "," + Join(rest)
  {
    assert ([p] + rest)[1..] == rest;
  }

  /** Splitting joined comma-free pieces gives the pieces back. */
  lemma {:induction false} SplitJoin(pieces: seq<string>)
    requires |pieces| >= 1
    requires forall i :: 0 <= i < |pieces| ==> ',' !in pieces[i]
    ensures Split(Join(pieces)) == pieces
  {
    if |pieces| > 1 {
      var p, s := pieces[0], Join(pieces);
      assert s == p + [','] + Join(pieces[1..]);
      IndexOfFirst(p, ',', Join(pieces[1..]));
      assert s[..|p|] == p;
      assert s[|p| + 1..] == Join(pieces[1..]);
      SplitJoin(pieces[1..]);
      assert [p] + pieces[1..] == pieces;
    } else {
      assert IndexOf(pieces[0], ',') == |pieces[0]|;
    }
  }

  /** The comma-free prefix, the comma and the rest: splitting peels off one piece. */
  lemma SplitAtComma(s: string, k: nat)
    requires k < |s| && s[k] == ',' && ',' !in s[..k]
    ensures Split(s) == [s[..k]] + Split(s[k + 1..])
  {
    AroundComma(s, k);
    IndexOfFirst(s[..k], ',', s[k + 1..]);
  }

  /** `buf` holds `piece` at `at`, ended by a NUL: a C string that reads as `piece`. */
  ghost predicate PieceAt(buf: string, at: nat, piece: string)
  {
    at + |piece| < |buf| && buf[at..at + |piece|] == piece && buf[at + |piece|] == '\0'
  }

  /** Text written after a C string does not change it. */
  lemma PieceAtExtend(buf: string, more: string, at: nat, piece: string)
    requires PieceAt(buf, at, piece)
    ensures PieceAt(buf + more, at, piece)
  {
    assert (buf + more)[at..at + |piece|] == buf[at..at + |piece|];
  }

  /** The C string at `at` of a buffer that holds `piece` there is `piece`. */
  lemma PieceAtReads(buf: string, at: nat, piece: string)
    requires PieceAt(buf, at, piece) && '\0' !in piece
    ensures CString(buf[at..]) == piece
  {
    assert buf[at..][..|piece|] == piece;
    CStringEndsAt(buf[at..], |piece|);
  }

  /** The number of pieces `high_parse_colors` counts: one more than the commas. */
  method CountPieces(data: string) returns (count: int)
    ensures count == CountChar(data, ',') + 1
  {
    count := 1;
    var i := 0;
    while i != |data|
      invariant 0 <= i <= |data|
      invariant count == CountChar(data[..i], ',') + 1
    {
      assert data[..i + 1] == data[..i] + [data[i]];
      CountCharAppend(data[..i], [data[i]], ',');
      if data[i] == ',' {
        count := count + 1;
      }
      i := i + 1;
    }
    assert data[..i] == data;
  }

  /** `s` with every comma replaced by a NUL. */
  function NulAtCommas(s: string): (r: string)
    ensures |r| == |s|
  {
    seq(|s|, i requires 0 <= i < |s| => if s[i] == ',' then '\0' else s[i])
  }

  /**
   * What the cutting loop leaves in `buf` for the text `data`: every comma
   * is a NUL and nothing else changed; `starts` holds one start per piece,
   * the first at 0 and each next one just past the NUL that ends the piece
   * before, and the C string at each start is the matching piece.
   */
  ghost predicate CutAt(data: string, buf: string, starts: seq<nat>)
  {
    && buf == NulAtCommas(data)
    && |starts| == |Split(data)| && starts[0] == 0
    && (forall j :: 0 <= j < |starts| - 1 ==> starts[j + 1] == starts[j] + |Split(data)[j]| + 1)
    && (forall j :: 0 <= j < |starts| ==> starts[j] <= |buf| && CString(buf[starts[j]..]) == Split(data)[j])
  }

  /**
   * The cutting loop of `high_parse_colors`: each comma of the copy `all`
   * becomes a NUL, and `starts` points at the start of each piece.
   */
  method CutAtCommas(all: array<char>) returns (starts: seq<nat>)
    modifies all
    requires '\0' !in all[..]
    ensures CutAt(old(all[..]), all[..], starts)
  {
    ghost var data := all[..];
    ghost var buf := data;
    starts := [0];
    var ptr := 0;
    ghost var done: seq<string> := [];
    CutStart(data);
    while true
      invariant all.Length == |data| && '\0' !in data
      invariant all[..] == buf
      invariant Cutting(data, buf, ptr, starts, done)
      decreases all.Length - ptr
    {
      var c := IndexOf(all[ptr..], ',');
      if c == all.Length - ptr {
        IndexOfNone(all[ptr..], ',');
        break;
      }
      CutAdvance(data, buf, ptr, c, starts, done);
      all[ptr + c] := '\0';
      buf, done, ptr, starts := buf[ptr + c := '\0'], done + [data[ptr..ptr + c]], ptr + c + 1, starts + [ptr + c + 1];
    }
    CutDone(data, buf, ptr, starts, done);
  }

  /**
   * The state of the cutting loop: the text up to `ptr` is cut, the pieces
   * `done` are the first pieces of the text and sit NUL-terminated at
   * `starts`, and the next piece starts at `ptr`.
   */
  ghost predicate Cutting(data: string, buf: string, ptr: nat, starts: seq<nat>, done: seq<string>)
  {
    && ptr <= |buf| == |data| && buf[ptr..] == data[ptr..]
    && |starts| == |done| + 1 && starts[|done|] == ptr && starts[0] == 0
    && Split(data) == done + Split(data[ptr..])
    && (forall j :: 0 <= j < |done| ==> PieceAt(buf[..ptr], starts[j], done[j]) && '\0' !in done[j])
    && (forall j :: 0 <= j < |done| ==> starts[j + 1] == starts[j] + |done[j]| + 1)
    && (forall i :: 0 <= i < ptr ==> buf[i] == NulAtCommas(data)[i])
  }

  /** Before the loop nothing is cut and the first piece starts at 0. */
  lemma CutStart(data: string)
    ensures Cutting(data, data, 0, [0], [])
  {
    assert data[0..] == data;
    assert Split(data) == [] + Split(data[0..]);
  }

  /** Cutting at the next comma keeps the loop's state. */
  lemma CutAdvance(data: string, buf: string, ptr: nat, c: nat, starts: seq<nat>, done: seq<string>)
    requires Cutting(data, buf, ptr, starts, done) && '\0' !in data
    requires ptr + c < |data| && c == IndexOf(data[ptr..], ',')
    ensures Cutting(data, buf[ptr + c := '\0'], ptr + c + 1, starts + [ptr + c + 1], done + [data[ptr..ptr + c]])
  {
    var buf', ptr', starts', done' := buf[ptr + c := '\0'], ptr + c + 1, starts + [ptr + c + 1], done + [data[ptr..ptr + c]];
    NoNulSlice(data, ptr, ptr + c);
    CutPiece(data, ptr, c);
    Regroup(Split(data), done, Split(data[ptr..]), data[ptr..ptr + c], Split(data[ptr'..]));
    CutStep(data, buf, ptr, c, starts, done, buf', ptr', starts', done');
    CutPrefix(buf, data, ptr, c);
    CutMarks(data, buf, ptr, c);
    StartsStep(starts, done, ptr, data[ptr..ptr + c]);
  }

  /** The next start lies just past the piece that starts at `ptr` and its NUL. */
  lemma StartsStep(starts: seq<nat>, done: seq<string>, ptr: nat, piece: string)
    requires |starts| == |done| + 1 && starts[|done|] == ptr && starts[0] == 0
    requires forall j :: 0 <= j < |done| ==> starts[j + 1] == starts[j] + |done[j]| + 1
    ensures var starts', done' := starts + [ptr + |piece| + 1], done + [piece];
      && |starts'| == |done'| + 1 && starts'[|done'|] == ptr + |piece| + 1 && starts'[0] == 0
      && forall j :: 0 <= j < |done'| ==> starts'[j + 1] == starts'[j] + |done'[j]| + 1
  {
    var starts', done' := starts + [ptr + |piece| + 1], done + [piece];
    forall j | 0 <= j < |done'|
      ensures starts'[j + 1] == starts'[j] + |done'[j]| + 1
    {
      if j < |done| {
        assert starts'[j + 1] == starts[j + 1] && starts'[j] == starts[j] && done'[j] == done[j];
      }
    }
  }

  /** When no comma is left, the buffer and the starts are what the cutting loop promises. */
  lemma CutDone(data: string, buf: string, ptr: nat, starts: seq<nat>, done: seq<string>)
    requires Cutting(data, buf, ptr, starts, done) && '\0' !in data && ',' !in data[ptr..]
    ensures CutAt(data, buf, starts)
  {
    ReadPieces(data, buf, ptr, starts, done);
    LastPieceMarks(data, buf, ptr);
    assert Split(data[ptr..]) == [data[ptr..]];
    forall j | 0 <= j < |done|
      ensures Split(data)[j] == done[j]
    {
    }
  }

  /** Writing a NUL over the next comma extends the part of the buffer already cut. */
  lemma CutMarks(data: string, buf: string, ptr: nat, c: nat)
    requires |buf| == |data| && ptr + c < |data| && buf[ptr..] == data[ptr..]
    requires c == IndexOf(data[ptr..], ',')
    requires forall i :: 0 <= i < ptr ==> buf[i] == NulAtCommas(data)[i]
    ensures forall i :: 0 <= i < ptr + c + 1 ==> buf[ptr + c := '\0'][i] == NulAtCommas(data)[i]
  {
    IndexOfNone(data[ptr..], ',');
    forall i | ptr <= i < ptr + c + 1
      ensures buf[ptr + c := '\0'][i] == NulAtCommas(data)[i]
    {
      assert data[ptr..][i - ptr] == data[i];
      assert buf[ptr..][i - ptr] == buf[i];
    }
  }

  /** Past the last comma the buffer is the text itself, so the whole buffer is cut. */
  lemma LastPieceMarks(data: string, buf: string, ptr: nat)
    requires ptr <= |buf| == |data| && buf[ptr..] == data[ptr..] && ',' !in data[ptr..]
    requires forall i :: 0 <= i < ptr ==> buf[i] == NulAtCommas(data)[i]
    ensures buf == NulAtCommas(data)
  {
    forall i | ptr <= i < |buf|
      ensures buf[i] == NulAtCommas(data)[i]
    {
      assert data[ptr..][i - ptr] == data[i];
      assert buf[ptr..][i - ptr] == buf[i];
    }
  }

  /** One round of the cutting loop keeps the pieces already cut and adds the next one. */
  lemma CutStep(data: string, buf: string, ptr: nat, c: nat, starts: seq<nat>, done: seq<string>,
                 buf': string, ptr': nat, starts': seq<nat>, done': seq<string>)
    requires |buf| == |data| && ptr + c < |data| && buf[ptr..] == data[ptr..]
    requires '\0' !in data[ptr..ptr + c]
    requires |starts| == |done| + 1 && starts[|done|] == ptr
    requires forall j :: 0 <= j < |done| ==> PieceAt(buf[..ptr], starts[j], done[j]) && '\0' !in done[j]
    requires buf' == buf[ptr + c := '\0'] && ptr' == ptr + c + 1
    requires done' == done + [data[ptr..ptr + c]] && starts' == starts + [ptr']
    ensures forall j :: 0 <= j < |done'| ==> PieceAt(buf'[..ptr'], starts'[j], done'[j]) && '\0' !in done'[j]
  {
    var piece := data[ptr..ptr + c];
    CutPrefix(buf, data, ptr, c);
    forall j | 0 <= j < |done'|
      ensures PieceAt(buf'[..ptr'], starts'[j], done'[j]) && '\0' !in done'[j]
    {
      if j < |done| {
        assert starts'[j] == starts[j] && done'[j] == done[j];
        PieceAtExtend(buf[..ptr], piece + ['\0'], starts[j], done[j]);
      } else {
        assert starts'[j] == ptr && done'[j] == piece;
        SliceOfAppend(buf[..ptr], piece, '\0');
      }
    }
  }

  /** The middle part of `a + (p + [x])`, and the character after it. */
  lemma SliceOfAppend(a: string, p: string, x: char)
    ensures (a + (p + [x]))[|a|..|a| + |p|] == p && (a + (p + [x]))[|a| + |p|] == x
  {
    var t := a + (p + [x]);
    forall i | 0 <= i < |p|
      ensures t[|a| + i] == p[i]
    {
    }
  }

  /** A slice of a string without NUL has no NUL. */
  lemma NoNulSlice(data: string, a: nat, b: nat)
    requires a <= b <= |data| && '\0' !in data
    ensures '\0' !in data[a..b]
  {
    assert forall x :: x in data[a..b] ==> x in data;
  }

  /** The piece up to the next comma after `ptr`, and the rest after that comma. */
  lemma CutPiece(data: string, ptr: nat, c: nat)
    requires ptr + c < |data| && c == IndexOf(data[ptr..], ',')
    ensures Split(data[ptr..]) == [data[ptr..ptr + c]] + Split(data[ptr + c + 1..])
  {
    assert data[ptr..][..c] == data[ptr..ptr + c];
    IndexOfNone(data[ptr..], ',');
    SplitAtComma(data[ptr..], c);
    assert data[ptr..][c + 1..] == data[ptr + c + 1..];
  }

  /** Moving the first piece of the rest to the end of the pieces done. */
  lemma Regroup(all: seq<string>, done: seq<string>, mid: seq<string>, piece: string, rest: seq<string>)
    requires all == done + mid && mid == [piece] + rest
    ensures all == (done + [piece]) + rest
  {
  }

  /** Writing a NUL over the comma extends the cut prefix by the piece and the NUL. */
  lemma CutPrefix(buf: string, data: string, ptr: nat, c: nat)
    requires |buf| == |data| && ptr + c < |data| && buf[ptr..] == data[ptr..]
    ensures buf[ptr + c := '\0'][..ptr + c + 1] == buf[..ptr] + (data[ptr..ptr + c] + ['\0'])
    ensures buf[ptr + c := '\0'][ptr + c + 1..] == data[ptr + c + 1..]
  {
    var b := buf[ptr + c := '\0'];
    forall i | ptr <= i < ptr + c
      ensures b[i] == data[i]
    {
      assert buf[ptr..][i - ptr] == data[ptr..][i - ptr];
    }
  }

  /** After the cutting loop the C strings at `starts` are the pieces. */
  lemma ReadPieces(data: string, buf: string, ptr: nat, starts: seq<nat>, done: seq<string>)
    requires ptr <= |buf| == |data| && buf[ptr..] == data[ptr..] && '\0' !in data
    requires ',' !in data[ptr..]
    requires |starts| == |done| + 1 && starts[|done|] == ptr
    requires Split(data) == done + Split(data[ptr..])
    requires forall j :: 0 <= j < |done| ==> PieceAt(buf[..ptr], starts[j], done[j]) && '\0' !in done[j]
    ensures |starts| == |Split(data)|
    ensures forall j :: 0 <= j < |starts| ==> starts[j] <= |buf|
    ensures forall j :: 0 <= j < |starts| ==> CString(buf[starts[j]..]) == Split(data)[j]
  {
    assert Split(data[ptr..]) == [data[ptr..]];
    assert buf == buf[..ptr] + data[ptr..];
    forall j | 0 <= j < |starts|
      ensures starts[j] <= |buf| && CString(buf[starts[j]..]) == Split(data)[j]
    {
      if j < |done| {
        PieceAtExtend(buf[..ptr], data[ptr..], starts[j], done[j]);
        PieceAtReads(buf, starts[j], done[j]);
      } else {
        assert forall x :: x in data[ptr..] ==> x in data;
        CStringEndsAt(buf[ptr..], |buf| - ptr);
      }
    }
  }

  /**
   * `high_parse_colors`: count the commas, copy the input, cut the copy at
   * its commas and collect the C string at each piece's start. `data` is a
   * C string, so it holds no NUL; the caller's string is only read.
   */
  method HighParseColors(data: string) returns (colors: seq<string>, numColors: int)
    requires '\0' !in data
    ensures numColors == |colors| == CountChar(data, ',') + 1
    ensures colors == Split(data)
  {
    numColors := CountPieces(data);
    var all := new char[|data|](k requires 0 <= k < |data| => data[k]);
    assert all[..] == data;
    var starts := CutAtCommas(all);
    ghost var pieces := Split(data);
    colors := [];
    var j := 0;
    while j < |starts|
      invariant 0 <= j <= |starts|
      invariant colors == pieces[..j]
    {
      assert pieces[..j + 1] == pieces[..j] + [pieces[j]];
      colors := colors + [CString(all[starts[j]..])];
      j := j + 1;
    }
    SplitLength(data);
  }

  /** The first piece is everything before the first comma, or all of `s`. */
  lemma FirstPiece(s: string)
    ensures ',' !in s ==> Split(s) == [s]
    ensures ',' in s ==> Split(s)[0] == s[..IndexOf(s, ',')] && |Split(s)| >= 2
  {
    IndexOfNone(s, ',');
  }
}

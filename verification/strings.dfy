/**
 * Character-string helpers shared by the models of the C sources: the
 * library calls `strchr`, `strstr`, `strlen` and `strcmp` restated on
 * Dafny strings, and the Option type used for C's nullable pointers.
 */
module Strings {

  /** A nullable value: `None` stands for a NULL pointer or a missing entry. */
  datatype Option<+T> = None | Some(value: T)

  /** Index of the first `c` in `s`, or `|s|` when there is none (`strchr`). */
  function IndexOf(s: string, c: char): (k: nat)
    ensures k <= |s|
    ensures k < |s| ==> s[k] == c
  {
    IndexFrom(s, c, 0)
  }

  /** The scan of `strchr`: the first `c` at or after `i`, or `|s|`. */
  function IndexFrom(s: string, c: char, i: nat): (k: nat)
    requires i <= |s|
    ensures i <= k <= |s|
    ensures k < |s| ==> s[k] == c
    decreases |s| - i
  {
    if i == |s| then i
    else if s[i] == c then i
    else IndexFrom(s, c, i + 1)
  }

  /** No `c` comes before the index `IndexOf` returns; none at all when it returns `|s|`. */
  lemma IndexOfNone(s: string, c: char)
    ensures forall j :: 0 <= j < IndexOf(s, c) ==> s[j] != c
    ensures c !in s[..IndexOf(s, c)]
    ensures IndexOf(s, c) == |s| ==> c !in s
  {
    IndexFromNone(s, c, 0);
    assert s[..|s|] == s;
  }

  /** The scan passes no `c`. */
  lemma {:induction false} IndexFromNone(s: string, c: char, i: nat)
    requires i <= |s|
    ensures forall j :: i <= j < IndexFrom(s, c, i) ==> s[j] != c
    decreases |s| - i
  {
    if i < |s| && s[i] != c {
      IndexFromNone(s, c, i + 1);
    }
  }

  /** The first `c` of `p + [c] + q` is the one after `p` when `p` has none. */
  lemma IndexOfFirst(p: string, c: char, q: string)
    requires c !in p
    ensures IndexOf(p + [c] + q, c) == |p|
  {
    assert (p + [c] + q)[|p|] == c;
    IndexOfNone(p + [c] + q, c);
  }

  /** Number of occurrences of `c` in `s`. */
  function CountChar(s: string, c: char): (n: nat)
    ensures n <= |s|
    ensures n == 0 <==> c !in s
  {
    if s == [] then 0
    else (if s[0] == c then 1 else 0) + CountChar(s[1..], c)
  }

  /** Counting distributes over concatenation. */
  lemma {:induction false} CountCharAppend(a: string, b: string, c: char)
    ensures CountChar(a + b, c) == CountChar(a, c) + CountChar(b, c)
  {
    if a == [] {
      assert a + b == b;
    } else {
      assert (a + b)[1..] == a[1..] + b;
      CountCharAppend(a[1..], b, c);
    }
  }

  /**
   * The C string a character buffer holds: everything before its first
   * NUL character (what `strlen`, `strchr` and `strstr` see).
   */
  function CString(s: string): (r: string)
    ensures r <= s
    ensures '\0' !in r
    ensures |r| == |s| || s[|r|] == '\0'
  {
    IndexOfNone(s, '\0');
    s[..IndexOf(s, '\0')]
  }

  /** A NUL at `b` ends the C string that starts at the front of `s`. */
  lemma CStringEndsAt(s: string, b: nat)
    requires b <= |s| && '\0' !in s[..b]
    requires b == |s| || s[b] == '\0'
    ensures CString(s) == s[..b]
  {
  }

  /** `pat` occurs in `s` starting at index `j`. */
  predicate OccursAt(s: string, pat: string, j: nat)
  {
    j + |pat| <= |s| && s[j..j + |pat|] == pat
  }

  /** The first index at or after `from` where `pat` occurs in `s`. */
  function FindFrom(s: string, pat: string, from: nat): (r: Option<nat>)
    ensures r.Some? ==> from <= r.value && OccursAt(s, pat, r.value)
    ensures r.Some? ==> forall j :: from <= j < r.value ==> !OccursAt(s, pat, j)
    ensures r.None? ==> forall j :: from <= j ==> !OccursAt(s, pat, j)
    decreases |s| - from
  {
    if from + |pat| > |s| then None
    else if s[from..from + |pat|] == pat then Some(from)
    else FindFrom(s, pat, from + 1)
  }

  /** The first index where `pat` occurs in `s` (`strstr`), or None. */
  function Find(s: string, pat: string): (r: Option<nat>)
    ensures r.Some? ==> OccursAt(s, pat, r.value)
    ensures r.Some? ==> forall j :: 0 <= j < r.value ==> !OccursAt(s, pat, j)
    ensures r.None? ==> forall j :: 0 <= j ==> !OccursAt(s, pat, j)
  {
    FindFrom(s, pat, 0)
  }

  /** The last three characters of `s` (C's `s + strlen(s) - 3`). */
  function LastThree(s: string): (r: string)
    requires |s| >= 3
    ensures |r| == 3 && s == s[..|s| - 3] + r
  {
    s[|s| - 3..]
  }
}

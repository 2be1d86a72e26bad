/** String helpers for the tests and edits the TypeScript and Python files perform with
    `startsWith`, `endsWith`, `trim`/`strip`, `replace` and `split`. */
module Strings {
  import opened Wrappers

  predicate StartsWith(s: string, prefix: string) {
    |prefix| <= |s| && s[..|prefix|] == prefix
  }

  predicate EndsWith(s: string, suffix: string) {
    |suffix| <= |s| && s[|s| - |suffix|..] == suffix
  }

  lemma StartsWithConcat(p: string, rest: string)
    ensures StartsWith(p + rest, p)
  {
    assert (p + rest)[..|p|] == p;
  }

  lemma EndsWithConcat(rest: string, q: string)
    ensures EndsWith(rest + q, q)
  {
    assert (rest + q)[|rest + q| - |q|..] == q;
  }

  /** A prefix test on a concatenation is decided by its left part when that
      part is at least as long as the prefix. */
  lemma StartsWithLeft(s: string, t: string, p: string)
    requires |p| <= |s|
    ensures StartsWith(s + t, p) <==> StartsWith(s, p)
  {
    assert (s + t)[..|p|] == s[..|p|];
  }

  lemma EndsWithRight(s: string, t: string, q: string)
    requires |q| <= |t|
    ensures EndsWith(s + t, q) <==> EndsWith(t, q)
  {
    assert (s + t)[|s + t| - |q|..] == t[|t| - |q|..];
  }

  /** Removes the leading characters `drop` selects. */
  function TrimStart(s: string, drop: char -> bool): (r: string)
    ensures |r| <= |s| && r == s[|s| - |r|..]
    ensures forall i :: 0 <= i < |s| - |r| ==> drop(s[i])
    ensures r == "" || !drop(r[0])
  {
    if s != "" && drop(s[0]) then TrimStart(s[1..], drop) else s
  }

  /** Removes the trailing characters `drop` selects. */
  function TrimEnd(s: string, drop: char -> bool): (r: string)
    ensures |r| <= |s| && r == s[..|r|]
    ensures forall i :: |r| <= i < |s| ==> drop(s[i])
    ensures r == "" || !drop(r[|r| - 1])
  {
    if s != "" && drop(s[|s| - 1]) then TrimEnd(s[..|s| - 1], drop) else s
  }

  /** Both ends trimmed: JavaScript's `trim()` and Python's `strip(chars)`
      with `drop` the set of characters they remove. */
  function Trim(s: string, drop: char -> bool): (r: string)
    ensures r == "" || (!drop(r[0]) && !drop(r[|r| - 1]))
    ensures exists i, j :: TrimmedTo(s, drop, i, j) && r == s[i..j]
  {
    var a := TrimStart(s, drop);
    var r := TrimEnd(a, drop);
    TrimSpan(s, drop, a, r);
    r
  }

  /** Everything of `s` outside `s[i..j]` is a character `drop` selects. */
  predicate TrimmedTo(s: string, drop: char -> bool, i: int, j: int) {
    && 0 <= i <= j <= |s|
    && (forall k :: 0 <= k < i ==> drop(s[k]))
    && (forall k :: j <= k < |s| ==> drop(s[k]))
  }

  lemma TrimSpan(s: string, drop: char -> bool, a: string, r: string)
    requires |a| <= |s| && a == s[|s| - |a|..]
    requires forall k :: 0 <= k < |s| - |a| ==> drop(s[k])
    requires |r| <= |a| && r == a[..|r|]
    requires forall k :: |r| <= k < |a| ==> drop(a[k])
    ensures TrimmedTo(s, drop, |s| - |a|, |s| - |a| + |r|)
    ensures r == s[|s| - |a|..|s| - |a| + |r|]
  {
    var i := |s| - |a|;
    forall k | i + |r| <= k < |s|
      ensures drop(s[k])
    {
      assert s[k] == a[k - i];
    }
  }

  /** Text whose end characters are kept is left as it is by trimming. */
  lemma TrimKept(s: string, drop: char -> bool)
    requires s == "" || (!drop(s[0]) && !drop(s[|s| - 1]))
    ensures Trim(s, drop) == s
  {
    assert TrimStart(s, drop) == s;
    assert TrimEnd(s, drop) == s;
  }

  /** `pat` occurs in `s` at index `i`. */
  predicate OccursAt(s: string, pat: string, i: nat) {
    i + |pat| <= |s| && s[i..i + |pat|] == pat
  }

  /** The index of the first occurrence of `pat` in `s`, if any. */
  function FirstIndex(s: string, pat: string): (r: Option<nat>)
    ensures r.Some? ==> OccursAt(s, pat, r.value)
    ensures r.Some? ==> forall j :: 0 <= j < r.value ==> !OccursAt(s, pat, j)
    ensures r.None? ==> forall j :: 0 <= j <= |s| ==> !OccursAt(s, pat, j)
    decreases |s|
  {
    if OccursAt(s, pat, 0) then Some(0)
    else if s == "" then None
    else
      var rest := FirstIndex(s[1..], pat);
      assert forall j :: 1 <= j <= |s| ==> (OccursAt(s, pat, j) <==> OccursAt(s[1..], pat, j - 1)) by {
        forall j | 1 <= j <= |s|
          ensures OccursAt(s, pat, j) <==> OccursAt(s[1..], pat, j - 1)
        {
          if j + |pat| <= |s| {
            assert s[1..][j - 1..j - 1 + |pat|] == s[j..j + |pat|];
          }
        }
      }
      match rest
      case None => None
      case Some(k) => Some(k + 1)
  }

  /** The first occurrence is the one no earlier occurrence precedes. */
  lemma FirstIndexIs(s: string, pat: string, i: nat)
    requires OccursAt(s, pat, i) && forall j :: 0 <= j < i ==> !OccursAt(s, pat, j)
    ensures FirstIndex(s, pat) == Some(i)
  {
  }

  /** JavaScript's `s.replace(pat, with)` with a string pattern: only the first
      occurrence is replaced. */
  function ReplaceFirst(s: string, pat: string, with: string): string {
    match FirstIndex(s, pat)
    case None => s
    case Some(i) => s[..i] + with + s[i + |pat|..]
  }

  /** Splits `s` at every comma that `shielded` does not protect; `shielded`
      sees the text after the comma. With `shielded` always false this is
      Python's `s.split(",")`. */
  function SplitCommas(s: string, shielded: string -> bool): (pieces: seq<string>)
    ensures |pieces| >= 1
    decreases |s|
  {
    match CutIndex(s, shielded)
    case None => [s]
    case Some(i) => [s[..i]] + SplitCommas(s[i + 1..], shielded)
  }

  /** The first comma of `s` that separates. */
  function CutIndex(s: string, shielded: string -> bool): (r: Option<nat>)
    ensures r.Some? ==> r.value < |s| && s[r.value] == ',' && !shielded(s[r.value + 1..])
    ensures r.Some? ==> forall j :: 0 <= j < r.value ==> !(s[j] == ',' && !shielded(s[j + 1..]))
    ensures r.None? ==> forall j :: 0 <= j < |s| ==> !(s[j] == ',' && !shielded(s[j + 1..]))
    decreases |s|
  {
    if s == "" then None
    else if s[0] == ',' && !shielded(s[1..]) then Some(0)
    else
      match CutIndex(s[1..], shielded)
      case None =>
        assert forall j :: 1 <= j < |s| ==> s[j] == s[1..][j - 1] && s[j + 1..] == s[1..][j..];
        None
      case Some(k) =>
        assert forall j :: 1 <= j <= k + 1 ==> s[j] == s[1..][j - 1] && s[j + 1..] == s[1..][j..];
        Some(k + 1)
  }

  /** The pieces joined back with commas. */
  function JoinCommas(pieces: seq<string>): string {
    if |pieces| == 0 then ""
    else if |pieces| == 1 then pieces[0]
    else pieces[0] + "," + JoinCommas(pieces[1..])
  }

  /** Splitting loses nothing: joining the pieces restores the text. */
  lemma {:induction false} SplitJoin(s: string, shielded: string -> bool)
    ensures JoinCommas(SplitCommas(s, shielded)) == s
    decreases |s|
  {
    match CutIndex(s, shielded)
    case None =>
    case Some(i) =>
      var rest := s[i + 1..];
      var tail := SplitCommas(rest, shielded);
      assert SplitCommas(s, shielded) == [s[..i]] + tail;
      SplitJoin(rest, shielded);
      JoinCons(s[..i], tail);
      assert s[i] == ',';
      assert s == s[..i] + [s[i]] + rest;
  }

  lemma JoinCons(head: string, tail: seq<string>)
    requires |tail| >= 1
    ensures JoinCommas([head] + tail) == head + "," + JoinCommas(tail)
  {
    assert ([head] + tail)[1..] == tail;
  }

  /** The number of bytes UTF-8 uses for one character. */
  function Utf8Width(c: char): (w: nat)
    ensures 1 <= w <= 4
  {
    if c < '\U{0080}' then 1
    else if c < '\U{0800}' then 2
    else if c < '\U{10000}' then 3
    else 4
  }

  /** The length of the UTF-8 encoding of `s`. */
  function Utf8Size(s: string): (n: nat)
    ensures |s| <= n <= 4 * |s|
  {
    if s == "" then 0 else Utf8Width(s[0]) + Utf8Size(s[1..])
  }
}

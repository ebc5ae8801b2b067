/**
 * The parts of Python's `str`, `list` and `int` behaviour that the parser, the compiler
 * and the hint builder rely on: `strip`, `startswith`, `splitlines`, `"sep".join`,
 * `split(sep, 1)`, `split(sep)[1]`, `list.index`, slicing with Python's clamping of
 * out-of-range and negative bounds, `str(int)` and `int(digits)`.
 */
module PyStr {
  import opened Wrappers

  /** `c.isspace()`: the characters `str.strip()` removes. */
  predicate IsSpace(c: char) {
    var n := c as int;
    (9 <= n <= 13) || (0x1c <= n <= 0x20) || n == 0x85 || n == 0xa0 || n == 0x1680
    || (0x2000 <= n <= 0x200a) || n == 0x2028 || n == 0x2029 || n == 0x202f
    || n == 0x205f || n == 0x3000
  }

  /** The characters at which `str.splitlines()` ends a line ("\r\n" counts as one break). */
  predicate IsLineBreak(c: char) {
    var n := c as int;
    (10 <= n <= 13) || (0x1c <= n <= 0x1e) || n == 0x85 || n == 0x2028 || n == 0x2029
  }

  /** The ASCII decimal digits. */
  predicate IsDigit(c: char) {
    '0' <= c <= '9'
  }

  predicate NoLineBreak(s: string) {
    forall j :: 0 <= j < |s| ==> !IsLineBreak(s[j])
  }

  predicate AllDigits(s: string) {
    forall j :: 0 <= j < |s| ==> IsDigit(s[j])
  }

  /** `s.startswith(prefix)`. */
  predicate StartsWith(s: string, prefix: string) {
    |prefix| <= |s| && s[..|prefix|] == prefix
  }

  /** `s[n:]` for a non-negative `n`: empty when `n` is past the end. */
  function Drop(s: string, n: nat): (r: string)
    ensures n <= |s| ==> r == s[n..]
    ensures n > |s| ==> r == []
  {
    if n <= |s| then s[n..] else []
  }

  /** Python's normalisation of one slice bound against a sequence of length `len`. */
  function SliceBound(i: int, len: nat): (b: nat)
    ensures b <= len
  {
    if i < 0 then (if i + len < 0 then 0 else i + len) else if i > len then len else i
  }

  /** `xs[start:stop]`, with Python's handling of negative and out-of-range bounds. */
  function Slice<T>(xs: seq<T>, start: int, stop: int): (r: seq<T>)
    ensures 0 <= start <= stop <= |xs| ==> r == xs[start..stop]
    ensures 0 <= stop <= start ==> r == []
    ensures start >= |xs| ==> r == []
  {
    var a := SliceBound(start, |xs|);
    var b := SliceBound(stop, |xs|);
    if a < b then xs[a..b] else []
  }

  // ---------------------------------------------------------------- strip

  /** `s.lstrip()`. */
  function TrimLeft(s: string): (r: string)
    ensures |r| <= |s|
    decreases |s|
  {
    if s != [] && IsSpace(s[0]) then TrimLeft(s[1..]) else s
  }

  /** `s.rstrip()`. */
  function TrimRight(s: string): (r: string)
    ensures |r| <= |s|
    decreases |s|
  {
    if s != [] && IsSpace(s[|s| - 1]) then TrimRight(s[..|s| - 1]) else s
  }

  /** `s.strip()`. */
  function Strip(s: string): string {
    TrimRight(TrimLeft(s))
  }

  // ---------------------------------------------------------------- splitlines

  /** The length of the first line of `s`: the index of its first line break, or |s|. */
  function LineLength(s: string): (k: nat)
    ensures k <= |s|
    ensures forall j :: 0 <= j < k ==> !IsLineBreak(s[j])
    ensures k < |s| ==> IsLineBreak(s[k])
  {
    if s == [] || IsLineBreak(s[0]) then 0 else 1 + LineLength(s[1..])
  }

  /**
   * `s.splitlines()`: the lines of `s` without their terminators. A final terminator does
   * not start an extra empty line, and "\r\n" is one terminator.
   */
  function SplitLines(s: string): (lines: seq<string>)
    ensures s != [] ==> |lines| >= 1
    ensures forall i :: 0 <= i < |lines| ==> NoLineBreak(lines[i])
    decreases |s|
  {
    if s == [] then []
    else
      var k := LineLength(s);
      if k == |s| then [s]
      else
        var next := if s[k] == '\r' && k + 1 < |s| && s[k + 1] == '\n' then k + 2 else k + 1;
        [s[..k]] + SplitLines(s[next..])
  }

  /** `sep.join(parts)`. */
  function Join(parts: seq<string>, sep: string): string
  {
    if parts == [] then []
    else if |parts| == 1 then parts[0]
    else parts[0] + sep + Join(parts[1..], sep)
  }

  /** A line followed by "\n" and more text splits into that line and the rest's lines. */
  lemma SplitLinesCons(line: string, rest: string)
    requires NoLineBreak(line)
    ensures SplitLines(line + "\n" + rest) == [line] + SplitLines(rest)
  {
    var s := line + "\n" + rest;
    var k := LineLength(s);
    assert s[|line|] == '\n';
    assert forall j :: 0 <= j < |line| ==> s[j] == line[j];
    assert k == |line|;
    assert s[..k] == line;
    assert s[k + 1..] == rest;
  }

  /** A non-empty text without line breaks is a single line. */
  lemma SplitLinesSingle(line: string)
    requires line != [] && NoLineBreak(line)
    ensures SplitLines(line) == [line]
  {
    assert LineLength(line) == |line|;
  }

  // ---------------------------------------------------------------- searching

  /** `xs.index(x, from)`: the first index at or after `from` holding `x`, if any. */
  function IndexOf<T(==)>(xs: seq<T>, x: T, from: nat): (r: Option<nat>)
    ensures r.Some? ==> from <= r.value < |xs| && xs[r.value] == x
    ensures r.Some? ==> forall j :: from <= j < r.value ==> xs[j] != x
    ensures r.None? ==> forall j :: from <= j < |xs| ==> xs[j] != x
    decreases |xs| - from
  {
    if from >= |xs| then None
    else if xs[from] == x then Some(from)
    else IndexOf(xs, x, from + 1)
  }

  /** `pat` occurs in `s` at position `j`. */
  predicate OccursAt(s: string, pat: string, j: nat) {
    j + |pat| <= |s| && s[j..j + |pat|] == pat
  }

  /** The first position at or after `from` where `pat` occurs in `s`, if any. */
  function FindFrom(s: string, pat: string, from: nat): (r: Option<nat>)
    ensures r.Some? ==> from <= r.value && OccursAt(s, pat, r.value)
    ensures r.Some? ==> forall j :: from <= j < r.value ==> !OccursAt(s, pat, j)
    ensures r.None? ==> forall j :: from <= j ==> !OccursAt(s, pat, j)
    decreases |s| - from
  {
    if from + |pat| > |s| then None
    else if OccursAt(s, pat, from) then Some(from)
    else FindFrom(s, pat, from + 1)
  }

  /**
   * `s.split(sep)[1]`: the piece between the first and the second occurrence of `sep`
   * (or the end of `s`); None where Python raises IndexError, as `sep` does not occur.
   */
  function SecondPiece(s: string, sep: string): (r: Option<string>)
    requires sep != []
    ensures r.None? <==> FindFrom(s, sep, 0).None?
    ensures r.Some? ==> var i := FindFrom(s, sep, 0).value;
      StartsWith(s[i + |sep|..], r.value)
      && FindFrom(r.value, sep, 0).None?
  {
    match FindFrom(s, sep, 0)
    case None => None
    case Some(i) =>
      var rest := s[i + |sep|..];
      match FindFrom(rest, sep, 0)
      case None => Some(rest)
      case Some(j) =>
        var piece := rest[..j];
        assert forall p: nat :: OccursAt(piece, sep, p) ==> OccursAt(rest, sep, p) by {
          forall p: nat | OccursAt(piece, sep, p) ensures OccursAt(rest, sep, p) {
            assert piece[p..p + |sep|] == rest[p..p + |sep|];
          }
        }
        Some(piece)
  }

  /**
   * `s.split(",", 1)` unpacked into two names: the text before and after the first
   * comma; None where Python raises ValueError, as there is no comma.
   */
  function SplitAtFirst(s: string, c: char): (r: Option<(string, string)>)
    ensures r.None? <==> c !in s
    ensures r.Some? ==> s == r.value.0 + [c] + r.value.1 && c !in r.value.0
  {
    match IndexOf(s, c, 0)
    case None => None
    case Some(i) =>
      assert s == s[..i] + [c] + s[i + 1..];
      Some((s[..i], s[i + 1..]))
  }

  // ---------------------------------------------------------------- numbers

  /** `int(ds)` for a non-empty string of ASCII digits. */
  function DigitsValue(ds: string): (n: nat)
    requires AllDigits(ds)
    decreases |ds|
  {
    if ds == [] then 0
    else DigitsValue(ds[..|ds| - 1]) * 10 + (ds[|ds| - 1] as int - '0' as int)
  }

  function DigitChar(d: nat): (c: char)
    requires d < 10
    ensures IsDigit(c)
  {
    ('0' as int + d) as char
  }

  function NatToString(n: nat): (s: string)
    ensures s != [] && AllDigits(s)
    ensures DigitsValue(s) == n
  {
    if n < 10 then [DigitChar(n)]
    else
      var ds := NatToString(n / 10) + [DigitChar(n % 10)];
      assert ds[..|ds| - 1] == NatToString(n / 10);
      ds
  }

  /** `str(i)` for a Python int. */
  function IntToString(i: int): (s: string)
    ensures s != []
    ensures i >= 0 ==> AllDigits(s) && DigitsValue(s) == i
    ensures i < 0 ==> s[0] == '-' && AllDigits(s[1..]) && DigitsValue(s[1..]) == -i
  {
    if i < 0 then "-" + NatToString(-i) else NatToString(i)
  }
}

/**
 * Pure text helpers of the converter: the candidate-line filter, the
 * backslash-doubling repair applied before the second decode attempt, the
 * splitting of a `::`-separated test identifier, decimal rendering of the
 * suite counter, and the merge and middle-truncation of captured output.
 * Text is a sequence of characters; lengths count sequence elements (the
 * source counts UTF-8 bytes, which agree for ASCII text).
 */
module Text {
  import opened Wrappers

  // ---------------------------------------------------------------------
  // Candidate-line filter
  // ---------------------------------------------------------------------

  /** The Unicode White_Space property, which Rust's `char::is_whitespace` tests. */
  predicate IsWhitespace(c: char) {
    || ('\U{0009}' <= c <= '\U{000D}')
    || c == ' '
    || c == '\U{0085}'
    || c == '\U{00A0}'
    || c == '\U{1680}'
    || ('\U{2000}' <= c <= '\U{200A}')
    || c == '\U{2028}'
    || c == '\U{2029}'
    || c == '\U{202F}'
    || c == '\U{205F}'
    || c == '\U{3000}'
  }

  /** The first character of `s` that is not whitespace, if any. */
  function FirstNonWhitespace(s: string): (r: Option<char>)
    ensures r.None? <==> forall i :: 0 <= i < |s| ==> IsWhitespace(s[i])
    ensures r.Some? ==> exists i :: 0 <= i < |s| && s[i] == r.value && !IsWhitespace(s[i]) &&
                                    forall j :: 0 <= j < i ==> IsWhitespace(s[j])
  {
    if s == [] then None
    else if !IsWhitespace(s[0]) then Some(s[0])
    else
      var r := FirstNonWhitespace(s[1..]);
      if r.Some? then
        ghost var i :| 0 <= i < |s[1..]| && s[1..][i] == r.value && !IsWhitespace(s[1..][i]) &&
                       forall j :: 0 <= j < i ==> IsWhitespace(s[1..][j]);
        assert s[i + 1] == r.value && !IsWhitespace(s[i + 1]);
        assert forall j :: 0 <= j < i + 1 ==> IsWhitespace(s[j]) by {
          forall j | 0 <= j < i + 1 ensures IsWhitespace(s[j]) {
            if j > 0 { assert s[j] == s[1..][j - 1]; }
          }
        }
        r
      else r
  }

  /** A line is handed to the decoder only when its first non-whitespace character is `{`. */
  predicate IsCandidate(line: string) {
    FirstNonWhitespace(line) == Some('{')
  }

  // ---------------------------------------------------------------------
  // Backslash doubling
  // ---------------------------------------------------------------------

  const Backslash: char := '\\'

  /** Number of occurrences of `c` in `s`. */
  function Count(s: string, c: char): nat {
    if s == [] then 0 else (if s[0] == c then 1 else 0) + Count(s[1..], c)
  }

  /** Every backslash of `s` replaced by two backslashes. */
  function DoubleBackslashes(s: string): (r: string)
    ensures |r| == |s| + Count(s, Backslash)
    ensures Count(r, Backslash) == 2 * Count(s, Backslash)
    ensures Count(s, Backslash) == 0 ==> r == s
  {
    if s == [] then []
    else if s[0] == Backslash then [Backslash, Backslash] + DoubleBackslashes(s[1..])
    else [s[0]] + DoubleBackslashes(s[1..])
  }

  /**
   * What a JSON string decoder does to the doubled text: each escaped pair
   * `\\` reads as one backslash; every other character is kept.
   */
  function UnescapeBackslashes(s: string): string {
    if s == [] then []
    else if |s| >= 2 && s[0] == Backslash && s[1] == Backslash then [Backslash] + UnescapeBackslashes(s[2..])
    else [s[0]] + UnescapeBackslashes(s[1..])
  }

  // ---------------------------------------------------------------------
  // Splitting a test identifier at `::`
  // ---------------------------------------------------------------------

  /** `s` holds the two-character separator `::` starting at index `i`. */
  predicate SeparatorAt(s: string, i: int) {
    0 <= i && i + 1 < |s| && s[i] == ':' && s[i + 1] == ':'
  }

  predicate HasSeparator(s: string) {
    exists i | 0 <= i < |s| :: SeparatorAt(s, i)
  }

  /**
   * `s.split("::")`: the pieces between non-overlapping occurrences of `::`,
   * found from left to right. There is always at least one piece.
   */
  function Split(s: string): (parts: seq<string>)
    ensures |parts| >= 1
    ensures parts[0] <= s
    ensures forall k :: 0 <= k < |parts| ==> !HasSeparator(parts[k])
    decreases |s|
  {
    if |s| < 2 then
      assert !HasSeparator(s) by {
        forall i ensures !SeparatorAt(s, i) { }
      }
      [s]
    else if s[0] == ':' && s[1] == ':' then
      assert !HasSeparator("") by {
        forall i ensures !SeparatorAt("", i) { }
      }
      [""] + Split(s[2..])
    else
      var rest := Split(s[1..]);
      var first := [s[0]] + rest[0];
      assert !HasSeparator(first) by {
        forall i ensures !SeparatorAt(first, i) {
          if i >= 1 && SeparatorAt(first, i) {
            assert SeparatorAt(rest[0], i - 1);
          }
        }
      }
      [first] + rest[1..]
  }

  /** `parts.join("::")`. */
  function Join(parts: seq<string>): string {
    if |parts| == 0 then ""
    else if |parts| == 1 then parts[0]
    else parts[0] + "::" + Join(parts[1..])
  }

  /** A test identifier decomposed into its last segment and the module path before it. */
  datatype NamePath = NamePath(name: string, path: string)

  /** `split_name`: the last piece of the split is the name; the others, re-joined, the path. */
  function SplitName(full: string): NamePath {
    var parts := Split(full);
    NamePath(parts[|parts| - 1], Join(parts[..|parts| - 1]))
  }

  // ---------------------------------------------------------------------
  // Decimal rendering (the `{}` format of an unsigned counter)
  // ---------------------------------------------------------------------

  predicate IsDigit(c: char) { '0' <= c <= '9' }

  function Digit(d: nat): (c: char)
    requires d < 10
    ensures IsDigit(c) && (c as int) - ('0' as int) == d
  {
    ('0' as int + d) as char
  }

  /** Decimal digits of `n`, most significant first, without leading zeros. */
  function Decimal(n: nat): (s: string)
    ensures |s| >= 1
    ensures forall i :: 0 <= i < |s| ==> IsDigit(s[i])
    ensures s[0] == '0' ==> n == 0
  {
    if n < 10 then [Digit(n)] else Decimal(n / 10) + [Digit(n % 10)]
  }

  /** The number a string of decimal digits denotes. */
  function DecimalValue(s: string): nat
    requires forall i :: 0 <= i < |s| ==> IsDigit(s[i])
  {
    if s == [] then 0
    else
      assert IsDigit(s[|s| - 1]);
      DecimalValue(s[..|s| - 1]) * 10 + ((s[|s| - 1] as int) - ('0' as int))
  }

  // ---------------------------------------------------------------------
  // Captured output: merge and middle-truncation
  // ---------------------------------------------------------------------

  /** The marker written in place of the removed middle of an over-long output. */
  const TruncationMarker: string := "\n[...TRUNCATED...]\n"

  /**
   * The failure's system-out text: stdout alone when stderr is empty,
   * stderr alone when stdout is empty, otherwise stdout, a newline, stderr.
   */
  function MergeOutput(stdout: string, stderr: string): (r: string)
    ensures stdout <= r
    ensures |r| == |stdout| + |stderr| + (if stdout != [] && stderr != [] then 1 else 0)
    ensures r[|r| - |stderr|..] == stderr
    ensures stdout != [] && stderr != [] ==> r[|stdout|] == '\n'
  {
    if stderr == [] then stdout
    else if stdout == [] then stderr
    else stdout + "\n" + stderr
  }

  /**
   * Text longer than `maxLen` keeps its first and its last `maxLen / 2`
   * characters with the marker between them; shorter text is unchanged.
   */
  function Truncate(s: string, maxLen: nat): string {
    if |s| <= maxLen then s
    else s[..maxLen / 2] + TruncationMarker + s[|s| - maxLen / 2..]
  }
}

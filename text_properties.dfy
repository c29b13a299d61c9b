/** Properties of the text helpers: the filter, the backslash repair, split_name, the counter and truncation. */
module TextProperties {
  import opened Wrappers
  import opened Text

  /** The filter accepts exactly the lines whose first non-whitespace character is `{`. */
  lemma CandidateIff(line: string)
    ensures IsCandidate(line) <==>
      exists i :: 0 <= i < |line| && line[i] == '{' && forall j :: 0 <= j < i ==> IsWhitespace(line[j])
  {
    var r := FirstNonWhitespace(line);
    if i :| 0 <= i < |line| && line[i] == '{' && forall j :: 0 <= j < i ==> IsWhitespace(line[j]) {
      assert !IsWhitespace(line[i]);
      var k :| 0 <= k < |line| && line[k] == r.value && !IsWhitespace(line[k]) &&
               forall j :: 0 <= j < k ==> IsWhitespace(line[j]);
    }
  }

  /** A line with no whitespace before a leading `{` is a candidate, and so is the same line indented. */
  lemma IndentedCandidate(indent: string, rest: string)
    requires forall j :: 0 <= j < |indent| ==> IsWhitespace(indent[j])
    ensures IsCandidate(indent + "{" + rest)
  {
    var line := indent + "{" + rest;
    assert line[|indent|] == '{';
    assert forall j :: 0 <= j < |indent| ==> line[j] == indent[j];
    CandidateIff(line);
  }

  /** Decoding `\\` as one backslash undoes the doubling: the repaired line denotes the original text. */
  lemma {:induction false} UnescapeDoubled(s: string)
    ensures UnescapeBackslashes(DoubleBackslashes(s)) == s
  {
    if s != [] {
      UnescapeDoubled(s[1..]);
      if s[0] == Backslash {
        assert DoubleBackslashes(s) == [Backslash, Backslash] + DoubleBackslashes(s[1..]);
        assert (DoubleBackslashes(s))[2..] == DoubleBackslashes(s[1..]);
      } else {
        assert DoubleBackslashes(s) == [s[0]] + DoubleBackslashes(s[1..]);
        assert (DoubleBackslashes(s))[1..] == DoubleBackslashes(s[1..]);
      }
    }
  }

  /** A piece put in front of at least one other is followed by `::` in the join. */
  lemma {:induction false} JoinCons(first: string, parts: seq<string>)
    requires |parts| >= 1
    ensures Join([first] + parts) == first + "::" + Join(parts)
  {
    assert ([first] + parts)[1..] == parts;
  }

  /** A character put in front of the first piece comes first in the join. */
  lemma {:induction false} JoinPrepend(c: char, parts: seq<string>)
    requires |parts| >= 1
    ensures Join([[c] + parts[0]] + parts[1..]) == [c] + Join(parts)
  {
    var moved := [[c] + parts[0]] + parts[1..];
    if |parts| == 1 {
      assert moved == [[c] + parts[0]];
    } else {
      assert moved[1..] == parts[1..];
      var tail := Join(parts[1..]);
      assert Join(moved) == ([c] + parts[0]) + "::" + tail;
      assert Join(parts) == parts[0] + "::" + tail;
    }
  }

  /** Joining the pieces of a split with `::` restores the identifier. */
  lemma {:induction false} JoinSplit(s: string)
    ensures Join(Split(s)) == s
    decreases |s|
  {
    if |s| < 2 {
    } else if s[0] == ':' && s[1] == ':' {
      JoinSplit(s[2..]);
      JoinCons("", Split(s[2..]));
      assert s == "::" + s[2..];
    } else {
      JoinSplit(s[1..]);
      JoinPrepend(s[0], Split(s[1..]));
      assert s == [s[0]] + s[1..];
    }
  }

  /**
   * The first cut is the leftmost `::`: with two or more pieces a separator
   * follows the first piece, and none occurs before it.
   */
  lemma {:induction false} SplitFirstCut(s: string)
    ensures var parts := Split(s);
      |parts| >= 2 ==> SeparatorAt(s, |parts[0]|) && !HasSeparator(s[..|parts[0]| + 1])
    decreases |s|
  {
    if |s| < 2 {
    } else if s[0] == ':' && s[1] == ':' {
      var head := s[..1];
      forall i ensures !SeparatorAt(head, i) { }
    } else {
      var rest := Split(s[1..]);
      SplitFirstCut(s[1..]);
      if |rest| >= 2 {
        var m := |rest[0]|;
        assert Split(s)[0] == [s[0]] + rest[0];
        var head := s[..m + 2];
        assert s[1..][..m + 1] == head[1..];
        forall i ensures !SeparatorAt(head, i) {
          if i >= 1 && SeparatorAt(head, i) {
            assert SeparatorAt(s[1..][..m + 1], i - 1);
          }
        }
      }
    }
  }

  /** Joining all pieces equals joining all but the last, then `::`, then the last. */
  lemma {:induction false} JoinSnoc(parts: seq<string>)
    requires |parts| >= 2
    ensures Join(parts[..|parts| - 1]) + "::" + parts[|parts| - 1] == Join(parts)
  {
    var n := |parts|;
    if n == 2 {
      assert parts[..1] == [parts[0]];
    } else {
      JoinSnoc(parts[1..]);
      assert parts[1..][..n - 2] == parts[..n - 1][1..];
      assert parts[1..][n - 2] == parts[n - 1];
    }
  }

  /** Two or more pieces joined always produce a separator right after the first piece. */
  lemma JoinHasSeparator(parts: seq<string>)
    requires |parts| >= 2
    ensures SeparatorAt(Join(parts), |parts[0]|)
  {
    var j := Join(parts);
    assert j == parts[0] + "::" + Join(parts[1..]);
    assert j[|parts[0]|] == ':' && j[|parts[0]| + 1] == ':';
  }

  /** An identifier splits into more than one piece exactly when it contains `::`. */
  lemma SplitOnePieceIff(s: string)
    ensures |Split(s)| == 1 <==> !HasSeparator(s)
  {
    JoinSplit(s);
    var parts := Split(s);
    if |parts| >= 2 {
      JoinHasSeparator(parts);
    }
  }

  /**
   * `split_name`: the short name never contains `::`; an identifier without
   * `::` is its own name with an empty path; otherwise path, `::` and name
   * put back together give the identifier.
   */
  lemma SplitNameSpec(full: string)
    ensures !HasSeparator(SplitName(full).name)
    ensures !HasSeparator(full) <==> SplitName(full) == NamePath(full, "")
    ensures HasSeparator(full) ==> SplitName(full).path + "::" + SplitName(full).name == full
  {
    var parts := Split(full);
    JoinSplit(full);
    SplitOnePieceIff(full);
    if |parts| >= 2 {
      JoinSnoc(parts);
    }
  }

  /** Cuts are taken left to right: in `a:::b` the first two colons separate, so the name is `:b`. */
  lemma SplitNameLeftmost()
    ensures SplitName("a:::b") == NamePath(":b", "a")
  {
    assert Split("b") == ["b"];
    assert ":b"[1..] == "b";
    assert Split(":b") == [[':'] + "b"] + [];
    assert [':'] + "b" == ":b";
    assert Split(":b") == [":b"];
    assert ":::b"[2..] == ":b";
    assert Split(":::b") == ["", ":b"];
    assert "a:::b"[1..] == ":::b";
    assert Split("a:::b") == [['a'] + ""] + [":b"];
    assert ['a'] + "" == "a";
    assert Split("a:::b") == ["a", ":b"];
    assert ["a", ":b"][..1] == ["a"];
  }

  /** Appending a digit to a decimal string multiplies its value by ten and adds the digit. */
  lemma DecimalValueSnoc(s: string, c: char)
    requires forall i :: 0 <= i < |s| ==> IsDigit(s[i])
    requires IsDigit(c)
    ensures DecimalValue(s + [c]) == DecimalValue(s) * 10 + ((c as int) - ('0' as int))
  {
    assert (s + [c])[..|s|] == s;
  }

  /** Reading back the rendered counter gives the counter. */
  lemma {:induction false} DecimalRoundTrip(n: nat)
    ensures DecimalValue(Decimal(n)) == n
  {
    if n >= 10 {
      DecimalRoundTrip(n / 10);
      DecimalValueSnoc(Decimal(n / 10), Digit(n % 10));
    }
  }

  /** Distinct counters render as distinct strings. */
  lemma DecimalInjective(m: nat, n: nat)
    ensures Decimal(m) == Decimal(n) ==> m == n
  {
    DecimalRoundTrip(m);
    DecimalRoundTrip(n);
  }

  /** What truncation returns, in both cases. */
  lemma TruncateSpec(s: string, maxLen: nat)
    ensures |s| <= maxLen ==> Truncate(s, maxLen) == s
    ensures |s| > maxLen ==>
      var r, h := Truncate(s, maxLen), maxLen / 2;
      && |r| == 2 * h + |TruncationMarker|
      && r[..h] == s[..h]
      && r[h..h + |TruncationMarker|] == TruncationMarker
      && r[|r| - h..] == s[|s| - h..]
  {
    if |s| > maxLen {
      var r, h := Truncate(s, maxLen), maxLen / 2;
      assert r == s[..h] + TruncationMarker + s[|s| - h..];
      assert r[h..h + |TruncationMarker|] == TruncationMarker;
      assert r[|r| - h..] == s[|s| - h..];
    }
  }

  /** Truncation never overshoots the maximum by more than the marker's length. */
  lemma TruncateBound(s: string, maxLen: nat)
    ensures |Truncate(s, maxLen)| <= maxLen + |TruncationMarker|
  {
  }

  /** When something is cut away, the first and the last character of the output survive. */
  lemma TruncateKeepsEnds(s: string, maxLen: nat)
    requires maxLen >= 2
    requires |s| > maxLen
    ensures Truncate(s, maxLen)[0] == s[0]
    ensures Truncate(s, maxLen)[|Truncate(s, maxLen)| - 1] == s[|s| - 1]
  {
    TruncateSpec(s, maxLen);
    var r, h := Truncate(s, maxLen), maxLen / 2;
    assert r[..h][0] == r[0];
    assert r[|r| - h..][h - 1] == r[|r| - 1];
  }

  /** Truncating an already truncated output changes nothing. */
  lemma TruncateIdempotent(s: string, maxLen: nat)
    ensures Truncate(Truncate(s, maxLen), maxLen) == Truncate(s, maxLen)
  {
    if |s| > maxLen {
      var r, h := Truncate(s, maxLen), maxLen / 2;
      TruncateSpec(s, maxLen);
      assert |r| > maxLen;
      calc {
        Truncate(r, maxLen);
        r[..h] + TruncationMarker + r[|r| - h..];
        s[..h] + TruncationMarker + s[|s| - h..];
      }
    }
  }
}

/**
 Text primitives the report and the header detection rely on: substring search
 (Rust's `str::contains`), first and last occurrence of a character, the decimal
 rendering of an index (Rust's `Display` for `usize`) together with a reader for
 it, and the line structure of a text file written with `writeln!`.
 */
module Text {

  datatype Option<+T> = None | Some(value: T)

  // ---------------------------------------------------------------------------
  // Substring search
  // ---------------------------------------------------------------------------

  /** `pat` occurs in `s` starting at position `i`. */
  predicate OccursAt(s: string, pat: string, i: nat)
  {
    i + |pat| <= |s| && s[i..i + |pat|] == pat
  }

  /** An occurrence in `s` is either at position 0 or an occurrence in `s[1..]` shifted by one. */
  lemma OccursShift(s: string, pat: string)
    requires |s| >= 1
    ensures (exists i: nat :: OccursAt(s, pat, i))
        <==> OccursAt(s, pat, 0) || (exists j: nat :: OccursAt(s[1..], pat, j))
  {
    if exists i: nat :: OccursAt(s, pat, i) {
      var i: nat :| OccursAt(s, pat, i);
      if i > 0 {
        assert s[1..][i - 1..i - 1 + |pat|] == s[i..i + |pat|];
        assert OccursAt(s[1..], pat, i - 1);
      }
    }
    if exists j: nat :: OccursAt(s[1..], pat, j) {
      var j: nat :| OccursAt(s[1..], pat, j);
      assert s[1..][j..j + |pat|] == s[j + 1..j + 1 + |pat|];
      assert OccursAt(s, pat, j + 1);
    }
  }

  /** Substring test: true exactly when `pat` occurs somewhere in `s`. */
  function Contains(s: string, pat: string): (r: bool)
    ensures r <==> exists i: nat :: OccursAt(s, pat, i)
    decreases |s|
  {
    if |s| < |pat| then
      false
    else if s[..|pat|] == pat then
      assert OccursAt(s, pat, 0);
      true
    else if |s| == 0 then
      false
    else
      OccursShift(s, pat);
      Contains(s[1..], pat)
  }

  // ---------------------------------------------------------------------------
  // First occurrence of a character
  // ---------------------------------------------------------------------------

  /** Position of the first `c` in `s`, or `None` when `s` has no `c`. */
  function IndexOf(s: string, c: char): (r: Option<nat>)
    ensures r.None? <==> c !in s
    ensures r.Some? ==> r.value < |s| && s[r.value] == c && c !in s[..r.value]
  {
    if |s| == 0 then
      None
    else if s[0] == c then
      Some(0)
    else
      match IndexOf(s[1..], c)
      case None => None
      case Some(k) =>
        assert s[..k + 1] == [s[0]] + s[1..][..k];
        Some(k + 1)
  }

  /** Splitting at the first `sep` of `a + [sep] + b` gives back `a` and `b` when `a` has no `sep`. */
  lemma IndexOfJoined(a: string, sep: char, b: string)
    requires sep !in a
    ensures IndexOf(a + [sep] + b, sep) == Some(|a|)
    ensures (a + [sep] + b)[..|a|] == a
    ensures (a + [sep] + b)[|a| + 1..] == b
  {
    var s := a + [sep] + b;
    assert s[|a|] == sep;
    assert s[..|a|] == a;
  }

  /** Position of the last `c` in `s`, or `None` when `s` has no `c`. */
  function LastIndexOf(s: string, c: char): (r: Option<nat>)
    ensures r.None? <==> c !in s
    ensures r.Some? ==> r.value < |s| && s[r.value] == c && c !in s[r.value + 1..]
  {
    if |s| == 0 then
      None
    else if s[|s| - 1] == c then
      Some(|s| - 1)
    else
      var init := s[..|s| - 1];
      assert s == init + [s[|s| - 1]];
      match LastIndexOf(init, c)
      case None => None
      case Some(k) =>
        assert s[k + 1..] == init[k + 1..] + [s[|s| - 1]];
        Some(k)
  }

  /** Splitting at the last `sep` of `a + [sep] + b` gives back `a` and `b` when `b` has no `sep`. */
  lemma LastIndexOfJoined(a: string, sep: char, b: string)
    requires sep !in b
    ensures LastIndexOf(a + [sep] + b, sep) == Some(|a|)
    ensures (a + [sep] + b)[..|a|] == a
    ensures (a + [sep] + b)[|a| + 1..] == b
  {
    var s := a + [sep] + b;
    assert s[|a|] == sep;
    assert s[|a| + 1..] == b;
    assert s[..|a|] == a;
  }

  // ---------------------------------------------------------------------------
  // Decimal rendering of an index
  // ---------------------------------------------------------------------------

  predicate IsDigit(ch: char)
  {
    '0' <= ch <= '9'
  }

  predicate AllDigits(s: string)
  {
    forall k :: 0 <= k < |s| ==> IsDigit(s[k])
  }

  function DigitChar(d: nat): (ch: char)
    requires d < 10
    ensures IsDigit(ch)
  {
    (('0' as int) + d) as char
  }

  function DigitValue(ch: char): (d: nat)
    requires IsDigit(ch)
    ensures d < 10
  {
    ch as int - '0' as int
  }

  /** Decimal notation of `n`, most significant digit first. */
  function NatToString(n: nat): (s: string)
    ensures |s| >= 1 && AllDigits(s)
    decreases n
  {
    if n < 10 then [DigitChar(n)] else NatToString(n / 10) + [DigitChar(n % 10)]
  }

  /** The decimal notation is digits only, never empty, and has no leading zero except for `0` itself. */
  lemma {:induction false} NatToStringDigits(n: nat)
    ensures |NatToString(n)| >= 1 && AllDigits(NatToString(n))
    ensures NatToString(n)[0] == '0' <==> n == 0
    decreases n
  {
    if n >= 10 {
      NatToStringDigits(n / 10);
      var t := NatToString(n / 10);
      var s := t + [DigitChar(n % 10)];
      assert s[0] == t[0];
      forall k | 0 <= k < |s| ensures IsDigit(s[k]) {
        if k < |t| {
          assert s[k] == t[k];
        }
      }
    }
  }

  /** Value of a digit string read most significant digit first. */
  function DigitsValue(s: string): nat
    requires AllDigits(s)
  {
    if |s| == 0 then 0 else 10 * DigitsValue(s[..|s| - 1]) + DigitValue(s[|s| - 1])
  }

  /** Reads a decimal index: `None` unless `s` is a non-empty run of digits. */
  function ParseNat(s: string): (r: Option<nat>)
    ensures r.Some? <==> |s| >= 1 && AllDigits(s)
  {
    if |s| >= 1 && AllDigits(s) then Some(DigitsValue(s)) else None
  }

  /** Reading back the decimal notation of `n` gives `n`. */
  lemma {:induction false} NatToStringRoundTrip(n: nat)
    ensures ParseNat(NatToString(n)) == Some(n)
    decreases n
  {
    var s := NatToString(n);
    NatToStringDigits(n);
    if n < 10 {
      assert s == [DigitChar(n)];
      assert s[..0] == [];
    } else {
      NatToStringRoundTrip(n / 10);
      NatToStringDigits(n / 10);
      var t := NatToString(n / 10);
      assert s == t + [DigitChar(n % 10)];
      assert s[..|s| - 1] == t;
      assert DigitsValue(s) == 10 * (n / 10) + n % 10;
    }
  }

  /** Distinct indices render to distinct strings. */
  lemma NatToStringInjective(m: nat, n: nat)
    requires NatToString(m) == NatToString(n)
    ensures m == n
  {
    NatToStringRoundTrip(m);
    NatToStringRoundTrip(n);
  }

  /** The decimal notation of an index never contains `c` unless `c` is a digit. */
  lemma NatToStringHasNo(n: nat, c: char)
    requires !IsDigit(c)
    ensures c !in NatToString(n)
  {
    NatToStringDigits(n);
  }

  // ---------------------------------------------------------------------------
  // Lines of a text file
  // ---------------------------------------------------------------------------

  const Newline: char := '\n'

  /** File content produced by writing each line with `writeln!`: every line followed by a newline. */
  function JoinLines(lines: seq<string>): (text: string)
    ensures |lines| == 0 <==> |text| == 0
    ensures |lines| > 0 ==> text[|text| - 1] == Newline
  {
    if |lines| == 0 then [] else lines[0] + [Newline] + JoinLines(lines[1..])
  }

  /** No line contains a newline. */
  predicate NoNewlines(lines: seq<string>)
  {
    forall k :: 0 <= k < |lines| ==> Newline !in lines[k]
  }

  /** Splits file content at newlines; an unterminated last piece becomes a line of its own. */
  function SplitLines(text: string): (lines: seq<string>)
    ensures NoNewlines(lines)
    decreases |text|
  {
    if |text| == 0 then
      []
    else
      match IndexOf(text, Newline)
      case None => [text]
      case Some(k) => [text[..k]] + SplitLines(text[k + 1..])
  }

  /** A line without a newline, its newline and more text split into that line and the lines of the rest. */
  lemma SplitLinesCons(line: string, rest: string)
    requires Newline !in line
    ensures SplitLines(line + [Newline] + rest) == [line] + SplitLines(rest)
  {
    IndexOfJoined(line, Newline, rest);
  }

  /** A non-empty sequence is its head followed by its tail. */
  lemma HeadTail<T>(s: seq<T>)
    requires |s| > 0
    ensures [s[0]] + s[1..] == s
  {
  }

  /** Lines written with `writeln!` are read back unchanged when none of them contains a newline. */
  lemma {:induction false} SplitJoinLines(lines: seq<string>)
    requires NoNewlines(lines)
    ensures SplitLines(JoinLines(lines)) == lines
    decreases |lines|
  {
    if |lines| > 0 {
      SplitLinesCons(lines[0], JoinLines(lines[1..]));
      assert NoNewlines(lines[1..]) by {
        forall k | 0 <= k < |lines[1..]| ensures Newline !in lines[1..][k] {
          assert lines[1..][k] == lines[k + 1];
        }
      }
      SplitJoinLines(lines[1..]);
      HeadTail(lines);
    }
  }
}

/**
 * The handful of Python `str` operations the crawler relies on, over `seq<char>`:
 * literal substring search (what `re.search` does for a pattern without
 * metacharacters), `lower`, `startswith`, `splitlines`, `split(sep, 1)` and `strip`.
 */
module Text {
  import opened Wrappers
  import opened Sequences

  /** `pat` occurs in `s` starting at index `i`. */
  predicate OccursAt(s: string, pat: string, i: int) {
    0 <= i && i + |pat| <= |s| && s[i..i + |pat|] == pat
  }

  predicate StartsWith(s: string, prefix: string) {
    |prefix| <= |s| && s[..|prefix|] == prefix
  }

  /** Substring search, scanning `s` from the left. */
  predicate Contains(s: string, pat: string)
    decreases |s|
  {
    StartsWith(s, pat) || (s != [] && Contains(s[1..], pat))
  }

  lemma {:induction false} ContainsIff(s: string, pat: string)
    ensures Contains(s, pat) <==> exists i :: OccursAt(s, pat, i)
    decreases |s|
  {
    if StartsWith(s, pat) {
      assert OccursAt(s, pat, 0);
    } else if s != [] {
      ContainsIff(s[1..], pat);
      if Contains(s[1..], pat) {
        var j :| OccursAt(s[1..], pat, j);
        assert s[j + 1..j + 1 + |pat|] == s[1..][j..j + |pat|];
        assert OccursAt(s, pat, j + 1);
      }
      if exists i :: OccursAt(s, pat, i) {
        var i :| OccursAt(s, pat, i);
        assert i != 0;
        assert s[1..][i - 1..i - 1 + |pat|] == s[i..i + |pat|];
        assert OccursAt(s[1..], pat, i - 1);
      }
    }
  }

  /** Index of the leftmost occurrence of `pat` in `s`, if any. */
  function Find(s: string, pat: string): (r: Option<nat>)
    decreases |s|
  {
    if StartsWith(s, pat) then Some(0)
    else if s == [] then None
    else match Find(s[1..], pat)
      case None => None
      case Some(k) => Some(k + 1)
  }

  lemma {:induction false} FindSpec(s: string, pat: string)
    ensures Find(s, pat).Some? ==> OccursAt(s, pat, Find(s, pat).value)
    ensures Find(s, pat).Some? ==> forall j :: 0 <= j < Find(s, pat).value ==> !OccursAt(s, pat, j)
    ensures Find(s, pat).None? <==> !Contains(s, pat)
    decreases |s|
  {
    if StartsWith(s, pat) {
    } else if s == [] {
    } else {
      FindSpec(s[1..], pat);
      match Find(s[1..], pat)
      case None =>
      case Some(k) =>
        assert s[k + 1..k + 1 + |pat|] == s[1..][k..k + |pat|];
        forall j | 0 <= j < k + 1 ensures !OccursAt(s, pat, j) {
          if j > 0 && OccursAt(s, pat, j) {
            assert s[1..][j - 1..j - 1 + |pat|] == s[j..j + |pat|];
            assert OccursAt(s[1..], pat, j - 1);
          }
        }
    }
  }

  /**
   * `s.split(sep, 1)[1]`: the text after the first occurrence of `sep`;
   * `None` stands for the IndexError Python raises when `sep` does not occur.
   */
  function AfterFirst(s: string, sep: string): (r: Option<string>) {
    match Find(s, sep)
    case None => None
    case Some(i) => if i + |sep| <= |s| then Some(s[i + |sep|..]) else None
  }

  lemma AfterFirstSpec(s: string, sep: string)
    ensures AfterFirst(s, sep).None? <==> !Contains(s, sep)
    ensures AfterFirst(s, sep).Some? ==>
      exists i :: OccursAt(s, sep, i) && AfterFirst(s, sep).value == s[i + |sep|..] &&
        forall j :: 0 <= j < i ==> !OccursAt(s, sep, j)
  {
    FindSpec(s, sep);
    if Find(s, sep).Some? {
      var i := Find(s, sep).value;
      assert OccursAt(s, sep, i);
    }
  }

  /** `str.lower` on the ASCII letters; every other character is left as it is. */
  function LowerChar(c: char): char {
    if 'A' <= c <= 'Z' then (c as int - 'A' as int + 'a' as int) as char else c
  }

  function Lower(s: string): (r: string)
    ensures |r| == |s|
  {
    seq(|s|, i requires 0 <= i < |s| => LowerChar(s[i]))
  }

  /** The characters `str.splitlines` breaks at ("\r\n" counts as one break). */
  predicate IsLineBreak(c: char) {
    var n := c as int;
    0x0A <= n <= 0x0D || 0x1C <= n <= 0x1E || n == 0x85 || n == 0x2028 || n == 0x2029
  }

  /** The characters `str.isspace` accepts, which `str.strip()` removes. */
  predicate IsSpace(c: char) {
    var n := c as int;
    0x09 <= n <= 0x0D || 0x1C <= n <= 0x20 || n == 0x85 || n == 0xA0 || n == 0x1680 ||
    0x2000 <= n <= 0x200A || n == 0x2028 || n == 0x2029 || n == 0x202F || n == 0x205F ||
    n == 0x3000
  }

  predicate NoLineBreak(s: string) {
    forall i :: 0 <= i < |s| ==> !IsLineBreak(s[i])
  }

  /** Length of the first line of `s`: the index of its first line break, or `|s|`. */
  function LineLength(s: string): (k: nat)
    ensures k <= |s| && NoLineBreak(s[..k])
    ensures k < |s| ==> IsLineBreak(s[k])
    decreases |s|
  {
    if s == [] || IsLineBreak(s[0]) then 0 else 1 + LineLength(s[1..])
  }

  /** Width of the line break at the start of `s`: 2 for "\r\n", otherwise 1. */
  function BreakWidth(s: string): nat
    requires s != []
  {
    if |s| >= 2 && s[0] == '\r' && s[1] == '\n' then 2 else 1
  }

  /** `str.splitlines()`: the lines of `s` without their breaks; no trailing empty line. */
  function SplitLines(s: string): (lines: seq<string>)
    ensures forall i :: 0 <= i < |lines| ==> NoLineBreak(lines[i])
    ensures s == [] <==> lines == []
    decreases |s|
  {
    if s == [] then []
    else
      var k := LineLength(s);
      if k == |s| then [s]
      else [s[..k]] + SplitLines(s[k + BreakWidth(s[k..])..])
  }

  /** The first line ends exactly at the first line break. */
  lemma {:induction false} LineLengthAt(s: string, k: nat)
    requires k <= |s| && NoLineBreak(s[..k])
    requires k < |s| ==> IsLineBreak(s[k])
    ensures LineLength(s) == k
    decreases k
  {
    if k > 0 {
      assert s[..k][0] == s[0];
      assert s[1..][..k - 1] == s[..k][1..];
      LineLengthAt(s[1..], k - 1);
    }
  }

  /**
   * A line ended by a single break character (anything but the "\r" of a "\r\n")
   * is the first line, and the lines of the rest follow it.
   */
  lemma SplitLinesBreak(line: string, b: char, rest: string)
    requires NoLineBreak(line) && IsLineBreak(b)
    requires !(b == '\r' && rest != [] && rest[0] == '\n')
    ensures SplitLines(line + [b] + rest) == [line] + SplitLines(rest)
  {
    var s := line + [b] + rest;
    var k := |line|;
    assert s[..k] == line && s[k] == b;
    LineLengthAt(s, k);
    assert s[k..] == [b] + rest;
    assert s[k + 1..] == rest;
  }

  /** A line ended by "\r\n" is the first line; the two characters are one break. */
  lemma SplitLinesCrLf(line: string, rest: string)
    requires NoLineBreak(line)
    ensures SplitLines(line + "\r\n" + rest) == [line] + SplitLines(rest)
  {
    var s := line + "\r\n" + rest;
    var k := |line|;
    assert s[..k] == line && s[k] == '\r' && s[k + 1] == '\n';
    LineLengthAt(s, k);
    assert s[k..][0] == '\r' && s[k..][1] == '\n';
    assert s[k + 2..] == rest;
  }

  /** A non-empty text with no line break is a single line. */
  lemma SplitLinesSingle(line: string)
    requires line != [] && NoLineBreak(line)
    ensures SplitLines(line) == [line]
  {
    assert line[..|line|] == line;
    LineLengthAt(line, |line|);
  }

  /** `s` with every line-break character removed. */
  function DropBreaks(s: string): string
    decreases |s|
  {
    if s == [] then [] else (if IsLineBreak(s[0]) then [] else [s[0]]) + DropBreaks(s[1..])
  }

  lemma {:induction false} DropBreaksNone(s: string)
    requires NoLineBreak(s)
    ensures DropBreaks(s) == s
    decreases |s|
  {
    if s != [] {
      DropBreaksNone(s[1..]);
    }
  }

  /** A prefix without line breaks survives `DropBreaks` unchanged. */
  lemma {:induction false} DropBreaksLine(s: string, k: nat)
    requires k <= |s| && NoLineBreak(s[..k])
    ensures DropBreaks(s) == s[..k] + DropBreaks(s[k..])
    decreases k
  {
    if k > 0 {
      assert s[..k][0] == s[0];
      assert s[1..][..k - 1] == s[..k][1..];
      DropBreaksLine(s[1..], k - 1);
      assert s[1..][k - 1..] == s[k..];
      assert [s[0]] + s[..k][1..] == s[..k];
    }
  }

  /** A prefix made of line breaks disappears under `DropBreaks`. */
  lemma {:induction false} DropBreaksRun(s: string, w: nat)
    requires w <= |s| && forall i :: 0 <= i < w ==> IsLineBreak(s[i])
    ensures DropBreaks(s) == DropBreaks(s[w..])
    decreases w
  {
    if w > 0 {
      DropBreaksRun(s[1..], w - 1);
      assert s[1..][w - 1..] == s[w..];
    }
  }

  /** The text of a line followed by its break, with the breaks taken out, is the line. */
  lemma LineAndBreak(s: string, k: nat, w: nat)
    requires k + w <= |s| && NoLineBreak(s[..k])
    requires forall i :: k <= i < k + w ==> IsLineBreak(s[i])
    ensures DropBreaks(s) == s[..k] + DropBreaks(s[k + w..])
  {
    DropBreaksLine(s, k);
    DropBreaksRun(s[k..], w);
    assert s[k..][w..] == s[k + w..];
  }

  /** The break after the first line: one or two line-break characters. */
  lemma FirstBreak(s: string)
    requires LineLength(s) < |s|
    ensures var k := LineLength(s);
      k + BreakWidth(s[k..]) <= |s| &&
      forall i :: k <= i < k + BreakWidth(s[k..]) ==> IsLineBreak(s[i])
  {
    var k := LineLength(s);
    assert s[k..][0] == s[k];
    if BreakWidth(s[k..]) == 2 {
      assert s[k..][1] == s[k + 1];
    }
  }

  /** Joining the lines back gives the text with only its line breaks taken out. */
  lemma {:induction false} SplitLinesJoin(s: string)
    ensures Flatten(SplitLines(s)) == DropBreaks(s)
    decreases |s|
  {
    if s != [] {
      var k := LineLength(s);
      if k == |s| {
        assert s[..k] == s;
        DropBreaksNone(s);
        FlattenCons(s, []);
      } else {
        var w := BreakWidth(s[k..]);
        var rest := s[k + w..];
        assert SplitLines(s) == [s[..k]] + SplitLines(rest);
        FlattenCons(s[..k], SplitLines(rest));
        SplitLinesJoin(rest);
        FirstBreak(s);
        LineAndBreak(s, k, w);
      }
    }
  }

  /** `s` without its leading whitespace. */
  function StripLeft(s: string): (r: string)
    ensures |r| <= |s| && r == s[|s| - |r|..]
    ensures forall i :: 0 <= i < |s| - |r| ==> IsSpace(s[i])
    ensures r == [] || !IsSpace(r[0])
    decreases |s|
  {
    if s != [] && IsSpace(s[0]) then StripLeft(s[1..]) else s
  }

  /** `s` without its trailing whitespace. */
  function StripRight(s: string): (r: string)
    ensures |r| <= |s| && r == s[..|r|]
    ensures forall i :: |r| <= i < |s| ==> IsSpace(s[i])
    ensures r == [] || !IsSpace(r[|r| - 1])
    decreases |s|
  {
    if s != [] && IsSpace(s[|s| - 1]) then StripRight(s[..|s| - 1]) else s
  }

  /** `str.strip()`. */
  function Strip(s: string): string {
    StripRight(StripLeft(s))
  }

  /** A text that neither starts nor ends with whitespace is its own `strip()`. */
  lemma StripStripped(s: string)
    requires s == [] || (!IsSpace(s[0]) && !IsSpace(s[|s| - 1]))
    ensures Strip(s) == s
  {
  }
}

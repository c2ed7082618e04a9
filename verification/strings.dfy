/** The three string operations the package allow-list loader relies on:
    `bufio.ScanLines` line splitting, `strings.TrimSpace`, and taking the first
    field of `strings.Split(s, "|")`. */
module Strings {

  /** Go's `unicode.IsSpace`: the Latin-1 spaces plus the Unicode White_Space
      characters above U+00FF. */
  predicate IsSpace(c: char) {
    c == ' ' || c == '\t' || c == '\n' || c == '\U{000B}' || c == '\U{000C}' || c == '\r'
    || c == '\U{0085}' || c == '\U{00A0}' || c == '\U{1680}'
    || ('\U{2000}' <= c <= '\U{200A}')
    || c == '\U{2028}' || c == '\U{2029}' || c == '\U{202F}' || c == '\U{205F}' || c == '\U{3000}'
  }

  predicate AllSpace(s: string) {
    forall i :: 0 <= i < |s| ==> IsSpace(s[i])
  }

  /** Number of leading white-space characters. */
  function LeadingSpace(s: string): (n: nat)
    ensures n <= |s| && AllSpace(s[..n])
    ensures n < |s| ==> !IsSpace(s[n])
  {
    if |s| == 0 || !IsSpace(s[0]) then 0
    else
      var n := 1 + LeadingSpace(s[1..]);
      assert s[..n] == [s[0]] + s[1..][..n - 1];
      n
  }

  /** Number of trailing white-space characters. */
  function TrailingSpace(s: string): (n: nat)
    ensures n <= |s| && AllSpace(s[|s| - n..])
    ensures n < |s| ==> !IsSpace(s[|s| - n - 1])
  {
    if |s| == 0 || !IsSpace(s[|s| - 1]) then 0
    else
      var p := s[..|s| - 1];
      var n := 1 + TrailingSpace(p);
      assert s[|s| - n..] == p[|p| - (n - 1)..] + [s[|s| - 1]];
      n
  }

  /** `strings.TrimSpace`: s with its leading and trailing white space cut off.
      The result is the unique middle piece that neither starts nor ends with
      white space, with only white space around it. */
  function TrimSpace(s: string): (r: string)
    ensures exists lo, hi :: 0 <= lo <= hi <= |s| && r == s[lo..hi] && AllSpace(s[..lo]) && AllSpace(s[hi..])
    ensures |r| > 0 ==> !IsSpace(r[0]) && !IsSpace(r[|r| - 1])
    ensures |r| == 0 <==> AllSpace(s)
  {
    var lo := LeadingSpace(s);
    var rest := s[lo..];
    var t := TrailingSpace(rest);
    assert s[|s| - t..] == rest[|rest| - t..];
    assert t < |rest| ==> s[|s| - t - 1] == rest[|rest| - t - 1];
    TrimSpaceFacts(s, lo, t);
    s[lo..|s| - t]
  }

  /** The middle piece between a white-space prefix that stops at a
      non-space and a white-space suffix that stops at a non-space. */
  lemma TrimSpaceFacts(s: string, lo: nat, t: nat)
    requires lo <= |s| && AllSpace(s[..lo]) && (lo < |s| ==> !IsSpace(s[lo]))
    requires t <= |s| - lo && AllSpace(s[|s| - t..]) && (t < |s| - lo ==> !IsSpace(s[|s| - t - 1]))
    ensures var r := s[lo..|s| - t];
            && AllSpace(s[|s| - t..])
            && (|r| > 0 ==> !IsSpace(r[0]) && !IsSpace(r[|r| - 1]))
            && (|r| == 0 <==> AllSpace(s))
  {
    var r := s[lo..|s| - t];
    if |r| > 0 {
      assert r[0] == s[lo] && r[|r| - 1] == s[|s| - t - 1];
      assert !AllSpace(s) by {
        assert !IsSpace(s[lo]);
      }
    } else {
      assert lo == |s|;
      forall i | 0 <= i < |s| ensures IsSpace(s[i]) {
        assert s[i] == s[..lo][i];
      }
    }
  }

  /** Element 0 of `strings.Split(s, "|")`: everything before the first '|',
      or all of s when it has none. */
  function FirstField(s: string): (r: string)
    ensures |r| <= |s| && r == s[..|r|]
    ensures '|' !in r
    ensures |r| < |s| ==> s[|r|] == '|'
  {
    if |s| == 0 || s[0] == '|' then ""
    else
      var r := [s[0]] + FirstField(s[1..]);
      assert s[..|r|] == [s[0]] + s[1..][..|r| - 1];
      r
  }

  /** `bufio.ScanLines` with `dropCR`: one trailing carriage return is removed. */
  function DropCR(line: string): (r: string)
    ensures r == line || (line == r + "\r")
  {
    if |line| > 0 && line[|line| - 1] == '\r' then line[..|line| - 1] else line
  }

  /** Position of the first newline in s, if any. */
  function IndexNewline(s: string): (r: int)
    ensures -1 <= r < |s|
    ensures r == -1 <==> '\n' !in s
    ensures r >= 0 ==> s[r] == '\n' && '\n' !in s[..r]
  {
    if |s| == 0 then -1
    else if s[0] == '\n' then 0
    else
      var k := IndexNewline(s[1..]);
      if k == -1 then -1
      else
        assert s[..k + 1] == [s[0]] + s[1..][..k];
        k + 1
  }

  /** The lines `bufio.Scanner` yields for a whole input with the default
      `ScanLines` split: each newline ends a line, a last line without a
      newline still counts, and an empty input has no lines. */
  function ScanLines(content: string): (lines: seq<string>)
    ensures forall i :: 0 <= i < |lines| ==> '\n' !in lines[i]
    decreases |content|
  {
    if |content| == 0 then []
    else
      var k := IndexNewline(content);
      if k == -1 then [DropCR(content)]
      else [DropCR(content[..k])] + ScanLines(content[k + 1..])
  }

  /** Number of occurrences of c in s. */
  function CountChar(s: string, c: char): nat {
    if |s| == 0 then 0 else (if s[0] == c then 1 else 0) + CountChar(s[1..], c)
  }

  lemma {:induction false} CountCharAppend(a: string, b: string, c: char)
    ensures CountChar(a + b, c) == CountChar(a, c) + CountChar(b, c)
    decreases |a|
  {
    if |a| == 0 {
      assert a + b == b;
    } else {
      assert (a + b)[1..] == a[1..] + b;
      CountCharAppend(a[1..], b, c);
    }
  }

  lemma {:induction false} CountCharAbsent(s: string, c: char)
    requires c !in s
    ensures CountChar(s, c) == 0
    decreases |s|
  {
    if |s| > 0 {
      CountCharAbsent(s[1..], c);
    }
  }

  /** Splitting at the first newline k: the newline and the text before it
      contribute one to the newline count. */
  lemma CountNewlinesAt(content: string, k: nat)
    requires k < |content| && content[k] == '\n' && '\n' !in content[..k]
    ensures CountChar(content, '\n') == 1 + CountChar(content[k + 1..], '\n')
  {
    var rest := content[k + 1..];
    assert content == content[..k] + ([content[k]] + rest);
    CountCharAppend(content[..k], [content[k]] + rest, '\n');
    CountCharAppend([content[k]], rest, '\n');
    CountCharAbsent(content[..k], '\n');
    assert [content[k]][1..] == [];
  }

  /** Text that does not end with a newline: its last line is unterminated. */
  predicate Unterminated(s: string) {
    |s| > 0 && s[|s| - 1] != '\n'
  }

  /** Text after the first newline ends the way the whole text does. */
  lemma UnterminatedAfter(content: string, k: nat)
    requires k < |content| && content[k] == '\n'
    ensures Unterminated(content[k + 1..]) == Unterminated(content)
  {
    var rest := content[k + 1..];
    if |rest| > 0 {
      assert rest[|rest| - 1] == content[|content| - 1];
    }
  }

  /** One line per newline, plus one for an unterminated last line. */
  lemma {:induction false} ScanLinesCount(content: string)
    ensures |ScanLines(content)| == CountChar(content, '\n') + (if Unterminated(content) then 1 else 0)
    decreases |content|
  {
    if |content| > 0 {
      var k := IndexNewline(content);
      if k == -1 {
        CountCharAbsent(content, '\n');
      } else {
        ScanLinesCount(content[k + 1..]);
        CountNewlinesAt(content, k);
        UnterminatedAfter(content, k);
      }
    }
  }

  /** Each line followed by a newline, concatenated. */
  function Unlines(lines: seq<string>): string {
    if |lines| == 0 then "" else lines[0] + "\n" + Unlines(lines[1..])
  }

  lemma UnlinesCons(line: string, lines: seq<string>)
    ensures Unlines([line] + lines) == line + "\n" + Unlines(lines)
  {
    assert ([line] + lines)[1..] == lines;
  }

  /** Cutting text at a newline: the part before, the newline, the part after. */
  lemma SplitAtNewline(content: string, k: nat)
    requires k < |content| && content[k] == '\n'
    ensures content == content[..k] + "\n" + content[k + 1..]
    ensures '\r' !in content ==> '\r' !in content[..k] && '\r' !in content[k + 1..]
  {
    assert content == content[..k] + [content[k]] + content[k + 1..];
  }

  /** Without carriage returns, and with a final newline, splitting into lines
      loses nothing: writing each line back with its newline restores the input. */
  lemma {:induction false} ScanLinesUnlines(content: string)
    requires '\r' !in content
    requires !Unterminated(content)
    ensures Unlines(ScanLines(content)) == content
    decreases |content|
  {
    if |content| > 0 {
      assert content[|content| - 1] == '\n';
      var k := IndexNewline(content);
      var line := content[..k];
      var rest := content[k + 1..];
      SplitAtNewline(content, k);
      UnterminatedAfter(content, k);
      assert DropCR(line) == line;
      ScanLinesUnlines(rest);
      UnlinesCons(line, ScanLines(rest));
    }
  }
}

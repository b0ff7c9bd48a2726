/**
 Text files as Python reads them: universal newlines on the way in, and
 `splitlines`, which also breaks at the rarer separators.
 */
module TextLines {
  // ---- Characters and trimming ----

  predicate IsDigit(c: char) {
    '0' <= c <= '9'
  }

  predicate IsAlnum(c: char) {
    IsDigit(c) || 'a' <= c <= 'z' || 'A' <= c <= 'Z'
  }

  function StripLeft(s: string, drop: char -> bool): string {
    if s != "" && drop(s[0]) then StripLeft(s[1..], drop) else s
  }

  function StripRight(s: string, drop: char -> bool): string {
    if s != "" && drop(s[|s| - 1]) then StripRight(s[..|s| - 1], drop) else s
  }

  function Strip(s: string, drop: char -> bool): string {
    StripRight(StripLeft(s, drop), drop)
  }

  predicate IsSpace(c: char) {
    var n := c as int;
    || 0x09 <= n <= 0x0d || 0x1c <= n <= 0x20 || n == 0x85 || n == 0xa0 || n == 0x1680
    || 0x2000 <= n <= 0x200a || n == 0x2028 || n == 0x2029 || n == 0x202f || n == 0x205f || n == 0x3000
  }

  predicate IsBreak(c: char) {
    var n := c as int;
    0x0a <= n <= 0x0d || 0x1c <= n <= 0x1e || n == 0x85 || n == 0x2028 || n == 0x2029
  }

  ghost predicate NoBreak(s: string) {
    forall k :: 0 <= k < |s| ==> !IsBreak(s[k])
  }

  predicate OccursAt(s: string, part: string, i: int) {
    0 <= i <= |s| - |part| && s[i..i + |part|] == part
  }

  predicate Contains(s: string, part: string) {
    exists i :: 0 <= i <= |s| - |part| && OccursAt(s, part, i)
  }

  /** Universal newlines: `\r\n` and a lone `\r` are read as `\n`. */
  function Universal(s: string): string {
    if s == "" then ""
    else if s[0] != '\r' then [s[0]] + Universal(s[1..])
    else if |s| >= 2 && s[1] == '\n' then "\n" + Universal(s[2..])
    else "\n" + Universal(s[1..])
  }

  /** The length of the first line, its break included (text without `\r`). */
  function FirstLine(s: string): (n: nat)
    requires s != ""
    ensures 1 <= n <= |s|
    ensures forall k :: 0 <= k < n - 1 ==> !IsBreak(s[k])
    ensures n < |s| ==> IsBreak(s[n - 1])
  {
    if IsBreak(s[0]) || |s| == 1 then 1 else 1 + FirstLine(s[1..])
  }

  /** `splitlines(keepends=True)` on text without `\r`. */
  function SplitKeep(s: string): seq<string> {
    if s == "" then [] else var n := FirstLine(s); [s[..n]] + SplitKeep(s[n..])
  }

  /** `splitlines()`: the same lines without their breaks. */
  function SplitLines(s: string): seq<string> {
    var lines := SplitKeep(s);
    seq(|lines|, k requires 0 <= k < |lines| => Chomp(lines[k]))
  }

  function Chomp(line: string): string {
    if line != "" && IsBreak(line[|line| - 1]) then line[..|line| - 1] else line
  }

  function Concat(lines: seq<string>): string {
    if lines == [] then "" else lines[0] + Concat(lines[1..])
  }

  /** One line: no break except, perhaps, at its end. */
  ghost predicate LineLike(line: string) {
    line != "" && NoBreak(line[..|line| - 1])
  }

  /** A complete line: one break, at its end. */
  ghost predicate FullLine(line: string) {
    LineLike(line) && IsBreak(line[|line| - 1])
  }

  /** What `splitlines` can return: complete lines, and a last one that may lack its break. */
  ghost predicate Shape(lines: seq<string>) {
    && (forall k :: 0 <= k < |lines| ==> LineLike(lines[k]))
    && (forall k :: 0 <= k < |lines| - 1 ==> FullLine(lines[k]))
  }

  lemma FirstLineIs(s: string, n: nat)
    requires 1 <= n <= |s| && (n < |s| ==> IsBreak(s[n - 1]))
    requires forall k :: 0 <= k < n - 1 ==> !IsBreak(s[k])
    ensures FirstLine(s) == n
  {
    assert FirstLine(s) - 1 <= n - 1;
  }

  lemma ShapeCons(line: string, lines: seq<string>)
    requires LineLike(line) && Shape(lines) && (lines != [] ==> FullLine(line))
    ensures Shape([line] + lines) && Concat([line] + lines) == line + Concat(lines)
  {
    var all := [line] + lines;
    assert all[1..] == lines;
    forall k | 0 <= k < |all| ensures LineLike(all[k]) {
      assert k > 0 ==> all[k] == lines[k - 1];
    }
    forall k | 0 <= k < |all| - 1 ensures FullLine(all[k]) {
      assert k > 0 ==> all[k] == lines[k - 1];
    }
  }

  lemma FirstLineIsLine(s: string)
    requires s != ""
    ensures var n := FirstLine(s); LineLike(s[..n]) && (n < |s| ==> FullLine(s[..n]))
  {
    hide FirstLine, NoBreak, IsBreak;
    CutLine(s, FirstLine(s));
  }

  lemma CutLine(s: string, n: nat)
    requires 1 <= n <= |s| && forall k :: 0 <= k < n - 1 ==> !IsBreak(s[k])
    ensures LineLike(s[..n]) && s[..n][n - 1] == s[n - 1]
  {
    assert s[..n][..n - 1] == s[..n - 1];
  }

  lemma Rejoin(s: string, n: nat)
    requires n <= |s|
    ensures s[..n] + s[n..] == s
  {
  }

  /** Splitting and joining are inverse: text to lines and back ... */
  lemma {:induction false} ConcatOfSplit(s: string)
    ensures Concat(SplitKeep(s)) == s && Shape(SplitKeep(s))
    decreases |s|
  {
    if s != "" {
      var n := FirstLine(s);
      var rest := SplitKeep(s[n..]);
      ConcatOfSplit(s[n..]);
      FirstLineIsLine(s);
      assert rest != [] ==> n < |s|;
      ShapeCons(s[..n], rest);
      Rejoin(s, n);
      assert SplitKeep(s) == [s[..n]] + rest;
    }
  }

  lemma SplitKeepCons(first: string, rest: string)
    requires LineLike(first) && (rest != "" ==> FullLine(first))
    ensures SplitKeep(first + rest) == [first] + SplitKeep(rest)
  {
    hide IsBreak, FirstLine;
    var s := first + rest;
    forall k | 0 <= k < |first| - 1 ensures !IsBreak(s[k]) {
      assert s[k] == first[..|first| - 1][k];
    }
    FirstLineIs(s, |first|);
    assert s[..|first|] == first && s[|first|..] == rest;
  }

  /** ... and lines to text and back. */
  lemma {:induction false} SplitOfConcat(lines: seq<string>)
    requires Shape(lines)
    ensures SplitKeep(Concat(lines)) == lines
  {
    if lines != [] {
      hide SplitKeep, LineLike, FullLine;
      SplitOfConcat(lines[1..]);
      SplitKeepCons(lines[0], Concat(lines[1..]));
    }
  }

  lemma {:induction false} ConcatAppend(a: seq<string>, b: seq<string>)
    ensures Concat(a + b) == Concat(a) + Concat(b)
  {
    if a == [] {
      assert a + b == b;
    } else {
      assert (a + b)[1..] == a[1..] + b;
      ConcatAppend(a[1..], b);
    }
  }

  /** A first character that does not open a two-character break is read on its own, whatever follows the text. */
  lemma PlainHead(a: string, b: string)
    requires a != "" && (a[0] == '\r' ==> |a| >= 2 && a[1] != '\n')
    ensures var c := [if a[0] == '\r' then '\n' else a[0]];
      Universal(a) == c + Universal(a[1..]) && Universal(a + b) == c + Universal(a[1..] + b)
  {
    assert (a + b)[1..] == a[1..] + b;
  }

  lemma {:induction false} UniversalAppend(a: string, b: string)
    requires a != "" ==> a[|a| - 1] != '\r'
    ensures Universal(a + b) == Universal(a) + Universal(b)
    decreases |a|
  {
    if a == "" {
      assert a + b == b;
    } else if a[0] == '\r' && a[1] == '\n' {
      assert (a + b)[2..] == a[2..] + b;
      UniversalAppend(a[2..], b);
    } else {
      PlainHead(a, b);
      UniversalAppend(a[1..], b);
    }
  }

  lemma {:induction false} UniversalNoReturn(s: string)
    ensures '\r' !in Universal(s)
    ensures '\r' !in s <==> Universal(s) == s
    decreases |s|
  {
    if s != "" {
      var rest := if s[0] == '\r' && |s| >= 2 && s[1] == '\n' then s[2..] else s[1..];
      UniversalNoReturn(rest);
      assert s == [s[0]] + s[1..];
    }
  }

  lemma {:induction false} UniversalEnds(s: string)
    ensures var u := Universal(s + "\n"); u != "" && u[|u| - 1] == '\n'
    decreases |s|
  {
    if s != "" {
      var n := if s[0] == '\r' && |s| >= 2 && s[1] == '\n' then 2 else 1;
      if s == "\r" {
        assert s + "\n" == "\r\n" && (s + "\n")[2..] == "";
      } else {
        assert (s + "\n")[n..] == s[n..] + "\n";
        assert (s + "\n")[1] == (if |s| >= 2 then s[1] else '\n');
        UniversalEnds(s[n..]);
      }
    } else {
      assert s + "\n" == "\n";
    }
  }
}

/** The clean-up `clean_markdown` applies to the supported-sites list before
    showing it: each line is stripped, a heading's `#` marks and a list
    item's `- ` or `* ` are dropped, `[text](target)` links keep their text,
    and `**` and backquotes disappear; the lines are joined back with `\n`
    and the whole text stripped. */
module Markdown {
  import opened Wrappers
  import opened Text

  // ---------------------------------------------------------------------------
  // Lines

  /** The characters Python's `str.splitlines` breaks a text at. */
  predicate IsLineBreak(c: char) {
    c == '\n' || c == '\r' || c == '\U{0B}' || c == '\U{0C}' ||
    ('\U{1C}' <= c <= '\U{1E}') || c == '\U{85}' || c == '\U{2028}' || c == '\U{2029}'
  }

  predicate NoBreak(s: string) {
    forall i :: 0 <= i < |s| ==> !IsLineBreak(s[i])
  }

  /** Index of the first line break of `s`, or `|s|` when there is none. */
  function LineEnd(s: string): (k: nat)
    ensures k <= |s| && NoBreak(s[..k])
    ensures k < |s| ==> IsLineBreak(s[k])
  {
    if s == [] || IsLineBreak(s[0]) then 0
    else
      var k := 1 + LineEnd(s[1..]);
      assert s[..k] == [s[0]] + s[1..][..k - 1];
      k
  }

  /** `\r\n` is one line break; every other break is one character. */
  function BreakLength(s: string, k: nat): nat
    requires k < |s|
  {
    if s[k] == '\r' && k + 1 < |s| && s[k + 1] == '\n' then 2 else 1
  }

  /** `text.splitlines()`: the lines without their breaks; a break at the
      very end does not start another line, and the empty text has none. */
  function SplitLines(s: string): (r: seq<string>)
    ensures forall i :: 0 <= i < |r| ==> NoBreak(r[i])
    decreases |s|
  {
    if s == [] then []
    else
      var k := LineEnd(s);
      if k == |s| then [s] else [s[..k]] + SplitLines(s[k + BreakLength(s, k)..])
  }

  lemma {:induction false} LineEndWhole(s: string)
    requires NoBreak(s)
    ensures LineEnd(s) == |s|
    decreases |s|
  {
    if s != [] {
      LineEndWhole(s[1..]);
    }
  }

  lemma {:induction false} LineEndAt(x: string, c: char, rest: string)
    requires NoBreak(x) && IsLineBreak(c)
    ensures LineEnd(x + [c] + rest) == |x|
    decreases |x|
  {
    if x != [] {
      assert (x + [c] + rest)[1..] == x[1..] + [c] + rest;
      LineEndAt(x[1..], c, rest);
    }
  }

  /** Lines without breaks, joined with `\n`, split back into the same
      lines, as long as the last one is not empty (a final empty line is
      a trailing break, which `splitlines` drops). */
  lemma {:induction false} SplitLinesJoin(xs: seq<string>)
    requires forall i :: 0 <= i < |xs| ==> NoBreak(xs[i])
    requires xs == [] || xs[|xs| - 1] != ""
    ensures SplitLines(Join(xs, "\n")) == xs
    decreases |xs|
  {
    if |xs| == 1 {
      LineEndWhole(xs[0]);
    } else if |xs| >= 2 {
      var j := Join(xs[1..], "\n");
      assert SplitLines(Join(xs, "\n")) == [xs[0]] + SplitLines(j) by {
        assert Join(xs, "\n") == xs[0] + "\n" + j;
        SplitLinesCons(xs[0], j);
      }
      assert SplitLines(j) == xs[1..] by {
        SplitLinesJoin(xs[1..]);
      }
      assert xs == [xs[0]] + xs[1..];
    }
  }

  /** A line without breaks, then `\n`: that line, then the rest's lines. */
  lemma SplitLinesCons(x: string, rest: string)
    requires NoBreak(x)
    ensures SplitLines(x + "\n" + rest) == [x] + SplitLines(rest)
  {
    var s := x + "\n" + rest;
    LineEndAt(x, '\n', rest);
    assert s[..|x|] == x;
    assert s[|x| + 1..] == rest;
    assert s[|x|] == '\n' && BreakLength(s, |x|) == 1;
  }

  // ---------------------------------------------------------------------------
  // One line

  /** `line.lstrip("#")`. */
  function DropHashes(s: string): (r: string)
    ensures r == [] || r[0] != '#'
  {
    if s != [] && s[0] == '#' then DropHashes(s[1..]) else s
  }

  lemma {:induction false} DropHashesSub(s: string, x: char)
    ensures x in DropHashes(s) ==> x in s
    decreases |s|
  {
    if s != [] && s[0] == '#' {
      DropHashesSub(s[1..], x);
    }
  }

  /** A `](` at `c` closing a link's text, with a `)` at least one
      character after the `(`. */
  predicate LinkCloses(s: string, c: nat) {
    c + 3 < |s| && s[c] == ']' && s[c + 1] == '(' && ')' in s[c + 3..]
  }

  /** The first `c >= from` that closes a link. */
  function CloseFrom(s: string, from: nat): (r: Option<nat>)
    ensures r.Some? ==> from <= r.value && LinkCloses(s, r.value)
    ensures forall c :: from <= c && (r.None? || c < r.value) ==> !LinkCloses(s, c)
    decreases |s| - from
  {
    if from + 3 >= |s| then None
    else if LinkCloses(s, from) then Some(from)
    else CloseFrom(s, from + 1)
  }

  /** `re.sub(r"\[(.+?)\]\((.+?)\)", r"\1", s)`: scanning from the left,
      a `[` starts a link when some `](` at least two characters on is
      followed, after at least one more character, by a `)`; the shortest
      text and then the shortest target are taken, the link is replaced by
      its text, and the scan goes on after the `)`. The `.` of the pattern
      never meets a line break, since the lines come from `splitlines`. */
  function Unlink(s: string): string
    decreases |s|
  {
    if s == [] then []
    else if s[0] == '[' && CloseFrom(s, 2).Some? then
      var c := CloseFrom(s, 2).value;
      var t := s[c + 3..];
      var k := c + 3 + IndexOfChar(t, ')');
      assert t[..|t|] == t;
      s[1..c] + Unlink(s[k + 1..])
    else [s[0]] + Unlink(s[1..])
  }

  /** `s.replace("**", "")`: pairs of stars removed from the left; no two
      stars are left side by side. */
  function RemoveStars(s: string): (r: string)
    ensures forall i :: 0 <= i < |r| - 1 ==> !(r[i] == '*' && r[i + 1] == '*')
    ensures '*' !in s ==> r == s
    decreases |s|
  {
    if |s| >= 2 && s[0] == '*' && s[1] == '*' then RemoveStars(s[2..])
    else if s == [] then []
    else
      var rest := RemoveStars(s[1..]);
      assert s[0] == '*' ==> rest == [] || rest[0] != '*';
      [s[0]] + rest
  }

  /** `s.replace("`", "")`. */
  function RemoveTicks(s: string): (r: string)
    ensures '`' !in r
    ensures '`' !in s ==> r == s
    ensures forall i :: 0 <= i < |r| ==> r[i] in s
  {
    if s == [] then []
    else if s[0] == '`' then RemoveTicks(s[1..])
    else [s[0]] + RemoveTicks(s[1..])
  }

  /** `replace("**", "")` scans from the left: text before the first star
      is kept as it is, a pair of stars is dropped, and a lone star (one not
      followed by another) is kept, the scan going on after it. */
  lemma RemoveStarsPair(x: string, y: string)
    requires '*' !in x
    ensures RemoveStars(x + "**" + y) == x + RemoveStars(y)
  {
    ConcatAssoc(x, "**", y);
    RemoveStarsPrefix(x, "**" + y);
    assert ("**" + y)[2..] == y;
  }

  lemma RemoveStarsLone(x: string, y: string)
    requires '*' !in x
    requires y == [] || y[0] != '*'
    ensures RemoveStars(x + "*" + y) == x + "*" + RemoveStars(y)
  {
    ConcatAssoc(x, "*", y);
    RemoveStarsPrefix(x, "*" + y);
    assert ("*" + y)[0] == '*' && ("*" + y)[1..] == y;
    RemoveStarsKeeps("*" + y);
    ConcatAssoc(x, "*", RemoveStars(y));
  }

  /** Text without stars passes through unchanged, whatever follows. */
  lemma {:induction false} RemoveStarsPrefix(x: string, z: string)
    requires '*' !in x
    ensures RemoveStars(x + z) == x + RemoveStars(z)
  {
    if x == [] {
      assert x + z == z;
    } else {
      var s := x + z;
      assert s[0] == x[0] && s[1..] == x[1..] + z;
      RemoveStarsKeeps(s);
      RemoveStarsPrefix(x[1..], z);
      ConsConcat(x, RemoveStars(z));
    }
  }

  lemma ConsConcat(x: string, w: string)
    requires x != []
    ensures x + w == [x[0]] + (x[1..] + w)
  {
  }

  lemma ConcatAssoc(a: string, b: string, c: string)
    ensures a + b + c == a + (b + c)
  {
  }

  /** A first character that does not open a pair of stars is kept. */
  lemma RemoveStarsKeeps(s: string)
    requires s != [] && !(|s| >= 2 && s[0] == '*' && s[1] == '*')
    ensures RemoveStars(s) == [s[0]] + RemoveStars(s[1..])
  {
  }

  /** `replace("`", "")` works character by character: it distributes over
      concatenation, keeping every other character and its order. */
  lemma {:induction false} RemoveTicksAppend(a: string, b: string)
    ensures RemoveTicks(a + b) == RemoveTicks(a) + RemoveTicks(b)
  {
    if a != [] {
      assert (a + b)[0] == a[0] && (a + b)[1..] == a[1..] + b;
      RemoveTicksAppend(a[1..], b);
      ConcatAssoc([a[0]], RemoveTicks(a[1..]), RemoveTicks(b));
    } else {
      assert a + b == b;
    }
  }

  lemma RemoveTicksChar(c: char)
    ensures RemoveTicks([c]) == if c == '`' then [] else [c]
  {
    assert [c][1..] == [];
  }

  /** A heading's `#` marks dropped, with the whitespace after them. */
  function DropHeading(a: string): string {
    if a != [] && a[0] == '#' then Strip(DropHashes(a)) else a
  }

  /** A list item's `- ` or `* ` dropped, with the whitespace after it. */
  function DropBullet(b: string): string {
    if |b| >= 2 && (b[..2] == "- " || b[..2] == "* ") then Strip(b[2..]) else b
  }

  /** Links unwrapped, then `**` and backquotes removed. */
  function Scrub(c: string): string {
    RemoveTicks(RemoveStars(Unlink(c)))
  }

  /** What the loop body of `clean_markdown` makes of one line. */
  function CleanLine(line: string): string {
    var a := Strip(line);
    if a == "" then "" else Scrub(DropBullet(DropHeading(a)))
  }

  /** A cleaned line holds no backquote and no line break. */
  lemma CleanLineShape(line: string)
    requires NoBreak(line)
    ensures '`' !in CleanLine(line) && NoBreak(CleanLine(line))
  {
    var r := CleanLine(line);
    if Strip(line) != "" {
      forall i | 0 <= i < |r| ensures !IsLineBreak(r[i]) {
        CleanLineChars(line, r[i]);
      }
    }
  }

  /** Every character of a cleaned line comes from the line. */
  lemma CleanLineChars(line: string, x: char)
    requires x in CleanLine(line)
    ensures x in line
  {
    var a := Strip(line);
    StripSub(line, x);
    var b := DropHeading(a);
    if a[0] == '#' {
      StripSub(DropHashes(a), x);
      DropHashesSub(a, x);
    }
    var c := DropBullet(b);
    if |b| >= 2 && (b[..2] == "- " || b[..2] == "* ") {
      StripSub(b[2..], x);
    }
    StarsSub(Unlink(c), x);
    UnlinkSub(c, x);
  }

  lemma StripSub(s: string, x: char)
    ensures x in Strip(s) ==> x in s
  {
    var i := LeadingSpaces(s);
    assert Strip(s) == s[i..][..KeptLength(s[i..])];
  }

  lemma {:induction false} StarsSub(s: string, x: char)
    ensures x in RemoveStars(s) ==> x in s
    decreases |s|
  {
    if |s| >= 2 && s[0] == '*' && s[1] == '*' {
      StarsSub(s[2..], x);
    } else if s != [] {
      StarsSub(s[1..], x);
    }
  }

  lemma {:induction false} UnlinkSub(s: string, x: char)
    ensures x in Unlink(s) ==> x in s
    decreases |s|
  {
    if s == [] {
    } else if s[0] == '[' && CloseFrom(s, 2).Some? {
      var c := CloseFrom(s, 2).value;
      var k := c + 3 + IndexOfChar(s[c + 3..], ')');
      UnlinkSub(s[k + 1..], x);
      assert x in s[1..c] ==> x in s;
      assert x in s[k + 1..] ==> x in s;
    } else {
      UnlinkSub(s[1..], x);
    }
  }

  /** Text without a `[` has no link to unwrap. */
  lemma {:induction false} UnlinkPlain(s: string)
    requires '[' !in s
    ensures Unlink(s) == s
    decreases |s|
  {
    if s != [] {
      UnlinkPlain(s[1..]);
    }
  }

  /** A link whose text holds no `]` and whose target holds no `)` is
      replaced by its text, and the scan goes on right after it. */
  lemma UnlinkLink(t: string, u: string, rest: string)
    requires t != "" && u != "" && ']' !in t && ')' !in u
    ensures Unlink("[" + t + "](" + u + ")" + rest) == t + Unlink(rest)
  {
    var s := "[" + t + "](" + u + ")" + rest;
    var c := |t| + 1;
    assert s[c + 3..] == u[1..] + ")" + rest;
    assert s[c + 3 + |u| - 1] == ')';
    assert LinkCloses(s, c);
    forall j | 2 <= j < c ensures !LinkCloses(s, j) {
      assert s[j] == t[j - 1];
    }
    assert CloseFrom(s, 2) == Some(c);
    NoCharIndexIn(u[1..], ')', rest);
    assert s[1..c] == t;
    assert s[c + 3 + |u| - 1 + 1..] == rest;
  }

  lemma NoCharIndexIn(x: string, c: char, rest: string)
    requires c !in x
    ensures IndexOfChar(x + [c] + rest, c) == |x|
  {
    IndexAfterPrefix(x, c, rest);
  }

  /** A line with none of the characters the clean-up looks for is only
      stripped. */
  lemma CleanLinePlain(line: string)
    requires '#' !in line && '[' !in line && '*' !in line && '`' !in line && '-' !in line
    ensures CleanLine(line) == Strip(line)
  {
    var a := Strip(line);
    if a != "" {
      StripSub(line, '#');
      StripSub(line, '[');
      StripSub(line, '*');
      StripSub(line, '`');
      StripSub(line, '-');
      ScrubPlain(a);
    }
  }

  /** Scrubbing leaves text without markers as it is, and dropping a
      heading or bullet does nothing to it. */
  lemma ScrubPlain(a: string)
    requires '#' !in a && '[' !in a && '*' !in a && '`' !in a && '-' !in a
    ensures DropBullet(DropHeading(a)) == a && Scrub(a) == a
  {
    if a != [] {
      assert a[0] in a;
      assert DropHeading(a) == a;
      if |a| >= 2 {
        assert a[..2][0] == a[0];
        assert a[..2] != "- " && a[..2] != "* ";
      }
    }
    UnlinkPlain(a);
    assert RemoveStars(a) == a;
  }

  /** `n` heading marks. */
  function Hashes(n: nat): (r: string)
    ensures |r| == n
  {
    if n == 0 then [] else ['#'] + Hashes(n - 1)
  }

  /** A heading line loses its `#` marks and the space after them. */
  lemma CleanLineHeading(level: nat, text: string)
    requires level >= 1
    requires text != [] && !IsSpace(text[0]) && !IsSpace(text[|text| - 1])
    requires '#' !in text && '[' !in text && '*' !in text && '`' !in text && '-' !in text
    ensures CleanLine(Hashes(level) + " " + text) == text
  {
    StripKeeps(text);
    assert Strip(" " + text) == text by {
      assert (" " + text)[1..] == text;
      assert LeadingSpaces(" " + text) == 1;
    }
    HeadingKept(level, text);
    ScrubPlain(text);
  }

  lemma HeadingKept(level: nat, text: string)
    requires level >= 1
    requires text != [] && !IsSpace(text[|text| - 1]) && text[0] != '#'
    ensures Strip(Hashes(level) + " " + text) == Hashes(level) + " " + text
    ensures DropHeading(Hashes(level) + " " + text) == Strip(" " + text)
  {
    var line := Hashes(level) + " " + text;
    assert line == Hashes(level) + (" " + text);
    assert line[0] == '#' && line[|line| - 1] == text[|text| - 1];
    StripKeeps(line);
    DropAllHashes(level, " " + text);
  }

  lemma {:induction false} DropAllHashes(n: nat, rest: string)
    requires rest == [] || rest[0] != '#'
    ensures DropHashes(Hashes(n) + rest) == rest
  {
    if n == 0 {
      assert Hashes(n) + rest == rest;
    } else {
      var s := Hashes(n) + rest;
      assert s == ['#'] + (Hashes(n - 1) + rest);
      assert s[0] == '#' && s[1..] == Hashes(n - 1) + rest;
      DropAllHashes(n - 1, rest);
    }
  }

  /** A list item loses its `- ` marker. */
  lemma CleanLineBullet(text: string)
    requires text != [] && !IsSpace(text[0]) && !IsSpace(text[|text| - 1])
    requires '#' !in text && '[' !in text && '*' !in text && '`' !in text && '-' !in text
    ensures CleanLine("- " + text) == text
  {
    var line := "- " + text;
    assert line[0] == '-' && line[|line| - 1] == text[|text| - 1];
    StripKeeps(line);
    StripKeeps(text);
    assert line[..2] == "- " && line[2..] == text;
    assert DropBullet(DropHeading(line)) == text;
    ScrubPlain(text);
  }

  /** A string that neither starts nor ends with whitespace is its own
      `strip`. */
  lemma StripKeeps(s: string)
    requires s != [] && !IsSpace(s[0]) && !IsSpace(s[|s| - 1])
    ensures LeadingSpaces(s) == 0 && KeptLength(s) == |s| && Strip(s) == s
  {
    assert s[0..] == s;
  }



  // ---------------------------------------------------------------------------
  // The whole text

  /** `clean_markdown(text)`. */
  function Clean(text: string): string {
    Strip(Join(CleanLines(SplitLines(text)), "\n"))
  }

  function CleanLines(ls: seq<string>): (r: seq<string>)
    ensures |r| == |ls|
    ensures forall i :: 0 <= i < |ls| ==> r[i] == CleanLine(ls[i])
  {
    if ls == [] then [] else CleanLines(ls[..|ls| - 1]) + [CleanLine(ls[|ls| - 1])]
  }

  /** The loop body of `clean_markdown`, rewriting one line in place. */
  method CleanOne(raw: string) returns (line: string)
    ensures line == CleanLine(raw)
  {
    line := Strip(raw);
    if line == "" {
      return "";
    }
    ghost var a := line;
    if line[0] == '#' {
      line := Strip(DropHashes(line));
    }
    assert line == DropHeading(a);
    ghost var b := line;
    if |line| >= 2 && (line[..2] == "- " || line[..2] == "* ") {
      line := Strip(line[2..]);
    }
    assert line == DropBullet(b);
    line := Unlink(line);
    line := RemoveTicks(RemoveStars(line));
  }

  /** The loop of `clean_markdown`, one line at a time. */
  method CleanMarkdown(text: string) returns (r: string)
    ensures r == Clean(text)
  {
    var ls := SplitLines(text);
    var lines: seq<string> := [];
    for i := 0 to |ls|
      invariant lines == CleanLines(ls[..i])
    {
      var line := CleanOne(ls[i]);
      assert ls[..i + 1][..i] == ls[..i];
      lines := lines + [line];
    }
    assert ls[..|ls|] == ls;
    r := Strip(Join(lines, "\n"));
  }

  lemma {:induction false} JoinAvoids(xs: seq<string>, sep: string, x: char)
    requires x !in sep && forall i :: 0 <= i < |xs| ==> x !in xs[i]
    ensures x !in Join(xs, sep)
    decreases |xs|
  {
    if |xs| >= 2 {
      JoinAvoids(xs[1..], sep, x);
    }
  }

  /** The cleaned text holds no backquote, and neither starts nor ends with
      whitespace. */
  lemma CleanShape(text: string)
    ensures '`' !in Clean(text)
    ensures Clean(text) == [] || (!IsSpace(Clean(text)[0]) && !IsSpace(Clean(text)[|Clean(text)| - 1]))
  {
    var ls := SplitLines(text);
    var cs := CleanLines(ls);
    forall i | 0 <= i < |cs| ensures '`' !in cs[i] {
      CleanLineShape(ls[i]);
    }
    JoinAvoids(cs, "\n", '`');
    StripSub(Join(cs, "\n"), '`');
    StripEnds(Join(cs, "\n"));
  }
}

/** The parts of `download_video` that do not talk to the process: the
    argument vector, the scan of the process's output lines (the error tail
    and the destination path), the status line and the failure texts, and
    the speed-limit choice of `on_speed_changed`. */
module Monitor {
  import opened Wrappers
  import opened Text
  import opened DownloadQueue
  import Presets

  // ---------------------------------------------------------------------------
  // Speed limit

  /** The entries of the speed dropdown. */
  const SpeedOptions: seq<string> := ["No limit", "1M", "2M", "5M"]

  /** `on_speed_changed`: the limit for the selected entry; none for
      "No limit" and for a position outside the list. */
  function SpeedLimitFor(selected: int): (r: Option<string>)
    ensures r.None? <==> selected < 1 || selected >= |SpeedOptions|
    ensures r.Some? ==> r.value == SpeedOptions[selected] && Truthy(r) && r.value != "No limit"
  {
    if selected < 0 || selected >= |SpeedOptions| then None
    else
      var choice := SpeedOptions[selected];
      if choice == "No limit" then None else Some(choice)
  }

  /** Different entries give different limits, so the limit identifies the
      entry it came from. */
  lemma SpeedLimitInjective(i: int, j: int)
    requires SpeedLimitFor(i).Some? && SpeedLimitFor(i) == SpeedLimitFor(j)
    ensures i == j
  {
  }

  // ---------------------------------------------------------------------------
  // Argument vector

  /** `-f` with the format id, or else with the selector, or nothing. */
  function FormatArgs(it: Item): seq<string> {
    if Truthy(it.formatId) then ["-f", it.formatId.value]
    else if Truthy(it.selector) then ["-f", it.selector.value]
    else []
  }

  function LimitArgs(it: Item): seq<string> {
    if Truthy(it.speedLimit) then ["--limit-rate", it.speedLimit.value] else []
  }

  /** `item.get("post_args") or []`. */
  function PostArgs(it: Item): seq<string> {
    if it.postArgs.Some? then it.postArgs.value else []
  }

  /** The command `download_video` runs for `it`, after the base command. */
  function Argv(base: seq<string>, it: Item): seq<string> {
    base + FormatArgs(it) + LimitArgs(it) + PostArgs(it) + [it.url]
  }

  /** The `cmd.extend` chain of `download_video`. */
  method BuildCommand(base: seq<string>, it: Item) returns (cmd: seq<string>)
    ensures cmd == Argv(base, it)
  {
    cmd := base;
    if Truthy(it.formatId) {
      cmd := cmd + ["-f", it.formatId.value];
    } else if Truthy(it.selector) {
      cmd := cmd + ["-f", it.selector.value];
    }
    if Truthy(it.speedLimit) {
      cmd := cmd + ["--limit-rate", it.speedLimit.value];
    }
    if PostArgs(it) != [] {
      cmd := cmd + PostArgs(it);
    }
    cmd := cmd + [it.url];
  }

  /** Where each argument sits: the base command first; then `-f` followed
      by the format id, which wins over the selector; then `--limit-rate`
      and the limit when there is one; then the post arguments; and the URL
      last. */
  lemma ArgvLayout(base: seq<string>, it: Item)
    ensures |Argv(base, it)| == |base| + |FormatArgs(it)| + |LimitArgs(it)| + |PostArgs(it)| + 1
    ensures Argv(base, it)[..|base|] == base
    ensures Argv(base, it)[|Argv(base, it)| - 1] == it.url
    ensures |FormatArgs(it)| == (if Truthy(it.formatId) || Truthy(it.selector) then 2 else 0)
    ensures Truthy(it.formatId) ==>
      Argv(base, it)[|base|] == "-f" && Argv(base, it)[|base| + 1] == it.formatId.value
    ensures !Truthy(it.formatId) && Truthy(it.selector) ==>
      Argv(base, it)[|base|] == "-f" && Argv(base, it)[|base| + 1] == it.selector.value
    ensures |LimitArgs(it)| == (if Truthy(it.speedLimit) then 2 else 0)
    ensures Truthy(it.speedLimit) ==>
      && Argv(base, it)[|base| + |FormatArgs(it)|] == "--limit-rate"
      && Argv(base, it)[|base| + |FormatArgs(it)| + 1] == it.speedLimit.value
    ensures Argv(base, it)[|base| + |FormatArgs(it)| + |LimitArgs(it)|..|Argv(base, it)| - 1] == PostArgs(it)
  {
    var a := Argv(base, it);
    var f := |base| + |FormatArgs(it)|;
    var l := f + |LimitArgs(it)|;
    assert a[..|base|] == base;
    assert a[f..l] == LimitArgs(it);
    assert a[l..|a| - 1] == PostArgs(it);
  }

  /** The queue item for a request of `start_download`, with the speed
      limit in force when it was enqueued. */
  function ItemOf(r: Presets.Request, speedLimit: Option<string>): Item {
    Item(r.url, r.formatId, r.selector, r.displayLabel, r.title, speedLimit, r.postArgs)
  }

  /** Every download `start_download` enqueues runs with `-f` right after
      the base command, naming the resolved format id or else the resolved
      selector, and with the URL last. */
  lemma EnqueuedCommandSelectsFormat(f: Presets.Form, base: seq<string>, speedLimit: Option<string>)
    requires Presets.StartDownload(f).Some?
    ensures Argv(base, ItemOf(Presets.StartDownload(f).value, speedLimit))[|base|] == "-f"
    ensures Argv(base, ItemOf(Presets.StartDownload(f).value, speedLimit))[|base| + 1] ==
      if Truthy(Presets.StartDownload(f).value.formatId) then Presets.StartDownload(f).value.formatId.value
      else Presets.StartDownload(f).value.selector.value
    ensures Argv(base, ItemOf(Presets.StartDownload(f).value, speedLimit))[|Argv(base, ItemOf(Presets.StartDownload(f).value, speedLimit))| - 1]
      == Presets.RequestUrl(f)
  {
    Presets.StartDownloadRequest(f);
    ArgvLayout(base, ItemOf(Presets.StartDownload(f).value, speedLimit));
  }

  // ---------------------------------------------------------------------------
  // Error tail

  /** The number of output lines the error tail keeps. */
  const TailLimit: nat := 20

  /** Every non-empty output line, right-stripped, in order. */
  function Kept(lines: seq<string>): (r: seq<string>)
    ensures |r| <= |lines|
  {
    if lines == [] then []
    else Kept(lines[..|lines| - 1]) + (if lines[|lines| - 1] != "" then [RStrip(lines[|lines| - 1])] else [])
  }

  /** The last `n` elements of `xs` (all of them when there are fewer). */
  function Tail<T>(xs: seq<T>, n: nat): (r: seq<T>)
    ensures |r| == if |xs| <= n then |xs| else n
    ensures r == xs[|xs| - |r|..]
  {
    if |xs| <= n then xs else xs[|xs| - n..]
  }

  /** The error tail after reading `lines`. */
  function ErrorTail(lines: seq<string>): seq<string> {
    Tail(Kept(lines), TailLimit)
  }

  /** Appending one element and then dropping the oldest when over the cap
      keeps exactly the last `n` elements. */
  lemma TailPush<T>(xs: seq<T>, x: T, n: nat)
    requires n >= 1
    ensures Tail(xs + [x], n) ==
      if |Tail(xs, n) + [x]| > n then (Tail(xs, n) + [x])[1..] else Tail(xs, n) + [x]
  {
    var t := Tail(xs, n) + [x];
    if |xs| < n {
      assert Tail(xs + [x], n) == xs + [x];
    } else {
      assert |t| == n + 1;
      assert t[1..] == (xs + [x])[|xs| + 1 - n..];
    }
  }

  // ---------------------------------------------------------------------------
  // Destination path

  /** The literal the destination pattern starts with. */
  const DestTag: string := "Destination:"

  /** The pattern `Destination:\s(.+)` matches at `p`: the tag, one
      whitespace character, and at least one character other than a line
      break. */
  predicate MatchAt(line: string, p: nat) {
    && p + |DestTag| + 2 <= |line|
    && line[p..p + |DestTag|] == DestTag
    && IsSpace(line[p + |DestTag|])
    && line[p + |DestTag| + 1] != '\n'
  }

  /** The leftmost position at or after `from` where the pattern matches. */
  function FirstMatch(line: string, from: nat): (r: Option<nat>)
    ensures r.Some? ==> from <= r.value && MatchAt(line, r.value)
    ensures r.Some? ==> forall q :: from <= q < r.value ==> !MatchAt(line, q)
    ensures r.None? ==> forall q :: from <= q ==> !MatchAt(line, q)
    decreases |line| - from
  {
    if from + |DestTag| + 2 > |line| then None
    else if MatchAt(line, from) then Some(from)
    else FirstMatch(line, from + 1)
  }

  /** Where a greedy `.+` starting at `q` stops: at the first line break or
      at the end. */
  function LineEnd(line: string, q: nat): (e: nat)
    requires q <= |line|
    ensures q <= e <= |line| && '\n' !in line[q..e]
    ensures e == |line| || line[e] == '\n'
  {
    var k := IndexOfChar(line[q..], '\n');
    assert line[q..q + k] == line[q..][..k];
    q + k
  }

  /** `group(1)` of the leftmost match: never empty and free of line
      breaks; none when the line does not match. */
  function Captured(line: string): (r: Option<string>)
    ensures r.None? <==> forall q: nat :: !MatchAt(line, q)
    ensures r.Some? ==> |r.value| >= 1 && '\n' !in r.value
  {
    match FirstMatch(line, 0)
    case None => None
    case Some(p) =>
      var g := p + |DestTag| + 1;
      Some(line[g..LineEnd(line, g)])
  }

  /** `group(1)` is the text after the tag and its one whitespace
      character, up to the next line break or the end of the line, taken
      at the leftmost match. */
  lemma CapturedPath(pre: string, w: char, path: string, rest: string)
    requires forall q: nat :: q < |pre| ==> !MatchAt(pre + DestTag + [w] + path + rest, q)
    requires IsSpace(w) && path != [] && '\n' !in path
    requires rest == [] || rest[0] == '\n'
    ensures Captured(pre + DestTag + [w] + path + rest) == Some(path)
    ensures DestOf(pre + DestTag + [w] + path + rest) == Some(Strip(path))
  {
    var line := pre + DestTag + [w] + path + rest;
    var p := |pre|;
    var g := p + |DestTag| + 1;
    assert line[p..p + |DestTag|] == DestTag;
    assert line[p + |DestTag|] == w;
    assert line[g] == path[0];
    assert MatchAt(line, p);
    assert FirstMatch(line, 0) == Some(p);
    assert line[g..] == path + rest;
    NoCharIndex(path, '\n');
    IndexAfterPrefix(path, '\n', if rest == [] then [] else rest[1..]);
    assert IndexOfChar(line[g..], '\n') == |path| by {
      if rest != [] {
        assert path + rest == path + ['\n'] + rest[1..];
      }
    }
    assert line[g..g + |path|] == path;
  }

  /** The destination a single line reports, stripped. */
  function DestOf(line: string): Option<string> {
    match Captured(line)
    case None => None
    case Some(g) => Some(Strip(g))
  }

  /** The destination after reading `lines`: each matching line overwrites
      the one before. */
  function LastDest(lines: seq<string>): Option<string> {
    if lines == [] then None
    else if DestOf(lines[|lines| - 1]).Some? then DestOf(lines[|lines| - 1])
    else LastDest(lines[..|lines| - 1])
  }

  /** The last matching line wins: a later chunk of output that reports a
      destination overrides everything before it, and one that reports
      none leaves the earlier destination in place. */
  lemma {:induction false} LastDestAppend(a: seq<string>, b: seq<string>)
    ensures LastDest(a + b) == if LastDest(b).Some? then LastDest(b) else LastDest(a)
    decreases |b|
  {
    if b == [] {
      assert a + b == a;
    } else {
      var b' := b[..|b| - 1];
      assert (a + b)[..|a + b| - 1] == a + b';
      assert (a + b)[|a + b| - 1] == b[|b| - 1];
      LastDestAppend(a, b');
    }
  }

  /** When no line reports a destination, there is none. */
  lemma {:induction false} NoDestination(lines: seq<string>)
    requires forall i :: 0 <= i < |lines| ==> DestOf(lines[i]).None?
    ensures LastDest(lines).None?
    decreases |lines|
  {
    if lines != [] {
      NoDestination(lines[..|lines| - 1]);
    }
  }

  // ---------------------------------------------------------------------------
  // The scan

  /** Reading one more line: a non-empty line is right-stripped onto the
      tail, the oldest line dropping out past the cap; a matching line
      replaces the destination. */
  lemma ScanStep(lines: seq<string>, i: nat)
    requires i < |lines|
    ensures ErrorTail(lines[..i + 1]) ==
      if lines[i] == "" then ErrorTail(lines[..i])
      else if |ErrorTail(lines[..i]) + [RStrip(lines[i])]| > TailLimit then (ErrorTail(lines[..i]) + [RStrip(lines[i])])[1..]
      else ErrorTail(lines[..i]) + [RStrip(lines[i])]
    ensures LastDest(lines[..i + 1]) == if DestOf(lines[i]).Some? then DestOf(lines[i]) else LastDest(lines[..i])
  {
    assert lines[..i + 1][..i] == lines[..i];
    if lines[i] != "" {
      TailPush(Kept(lines[..i]), RStrip(lines[i]), TailLimit);
    }
  }

  /** The `for line in process.stdout` loop, as far as it concerns the error
      tail and the destination path. */
  method ScanLines(lines: seq<string>) returns (tail: seq<string>, dest: Option<string>)
    ensures tail == ErrorTail(lines) && dest == LastDest(lines)
  {
    tail := [];
    dest := None;
    for i := 0 to |lines|
      invariant tail == ErrorTail(lines[..i])
      invariant dest == LastDest(lines[..i])
    {
      var line := lines[i];
      ScanStep(lines, i);
      if line != "" {
        tail := tail + [RStrip(line)];
        if |tail| > TailLimit {
          tail := tail[1..];
        }
      }
      var m := DestOf(line);
      if m.Some? {
        dest := m;
      }
    }
    assert lines[..|lines|] == lines;
  }

  /** The error tail holds at most 20 lines, and they are the last 20 of
      the kept lines (all of them when there are fewer). */
  lemma ErrorTailBound(lines: seq<string>)
    ensures |ErrorTail(lines)| <= TailLimit
    ensures |Kept(lines)| <= TailLimit ==> ErrorTail(lines) == Kept(lines)
    ensures |Kept(lines)| > TailLimit ==> ErrorTail(lines) == Kept(lines)[|Kept(lines)| - TailLimit..]
  {
  }

  /** The output stream yields lines whose only line break is the last
      character. */
  predicate OutputLines(lines: seq<string>) {
    forall i :: 0 <= i < |lines| ==> '\n' !in lines[i][..if lines[i] == "" then 0 else |lines[i]| - 1]
  }

  lemma RStripNoBreak(l: string)
    requires '\n' !in l[..if l == "" then 0 else |l| - 1]
    ensures '\n' !in RStrip(l)
  {
    if l != "" && l[|l| - 1] == '\n' {
      assert IsSpace(l[|l| - 1]);
      assert KeptLength(l) < |l|;
      assert RStrip(l) == l[..|l| - 1][..KeptLength(l)];
    } else if l != "" {
      assert l == l[..|l| - 1] + [l[|l| - 1]];
    }
  }

  lemma {:induction false} KeptNoBreak(lines: seq<string>)
    requires OutputLines(lines)
    ensures forall i :: 0 <= i < |Kept(lines)| ==> '\n' !in Kept(lines)[i]
    decreases |lines|
  {
    if lines != [] {
      var p := lines[..|lines| - 1];
      assert OutputLines(p) by {
        forall i | 0 <= i < |p| ensures '\n' !in p[i][..if p[i] == "" then 0 else |p[i]| - 1] {
          assert p[i] == lines[i];
        }
      }
      KeptNoBreak(p);
      if lines[|lines| - 1] != "" {
        RStripNoBreak(lines[|lines| - 1]);
      }
    }
  }

  // ---------------------------------------------------------------------------
  // Failure texts

  /** The text of the "Download Failed" popup. */
  function FailureText(tail: seq<string>): string {
    if tail == [] then "Download failed." else Join(tail, "\n")
  }

  /** The popup text gives back the error tail line by line: splitting it
      at line breaks yields exactly the tail, and an empty tail yields the
      fixed message. */
  lemma FailureTextLines(lines: seq<string>)
    requires OutputLines(lines)
    ensures ErrorTail(lines) == [] ==> FailureText(ErrorTail(lines)) == "Download failed."
    ensures ErrorTail(lines) != [] ==> Split(FailureText(ErrorTail(lines)), '\n') == ErrorTail(lines)
  {
    var t := ErrorTail(lines);
    if t != [] {
      KeptNoBreak(lines);
      var k := Kept(lines);
      assert forall i :: 0 <= i < |t| ==> t[i] == k[|k| - |t| + i];
      SplitJoin(t, '\n');
    }
  }

  /** The fetch error text: stripped stderr, else stripped stdout, else
      "Unknown error". It is never empty and has no surrounding
      whitespace. */
  function FetchErrorText(stderr: string, stdout: string): (r: string)
    ensures r != ""
    ensures !IsSpace(r[0]) && !IsSpace(r[|r| - 1])
    ensures !AllSpace(stderr) ==> r == Strip(stderr)
    ensures AllSpace(stderr) && !AllSpace(stdout) ==> r == Strip(stdout)
    ensures AllSpace(stderr) && AllSpace(stdout) ==> r == "Unknown error"
  {
    StripEnds(stderr);
    StripEnds(stdout);
    if Strip(stderr) != "" then Strip(stderr)
    else if Strip(stdout) != "" then Strip(stdout)
    else "Unknown error"
  }

  // ---------------------------------------------------------------------------
  // Status line

  /** The separator between the parts of the status line. */
  const Bullet: string := " • "

  /** A part of the status line that is present only when its token was
      found. */
  function Part(o: Option<string>, before: string, after: string): seq<string> {
    if Truthy(o) then [before + o.value + after] else []
  }

  /** The `parts` list for one "[download]" line, given the percent, speed
      and ETA tokens found on it. */
  function StatusParts(percent: Option<string>, speed: Option<string>, eta: Option<string>): seq<string> {
    ["Downloading..."] + Part(percent, "", "%") + Part(speed, "", "") + Part(eta, "ETA ", "")
  }

  function StatusText(percent: Option<string>, speed: Option<string>, eta: Option<string>): string {
    Join(StatusParts(percent, speed, eta), Bullet)
  }

  /** One optional part of the status line with its leading separator. */
  function Piece(o: Option<string>, before: string, after: string): string {
    if Truthy(o) then Bullet + before + o.value + after else ""
  }

  /** Each element preceded by the separator. */
  function Prefixed(xs: seq<string>, sep: string): string {
    if xs == [] then "" else sep + xs[0] + Prefixed(xs[1..], sep)
  }

  lemma {:induction false} JoinHead(x: string, ys: seq<string>, sep: string)
    ensures Join([x] + ys, sep) == x + Prefixed(ys, sep)
    decreases |ys|
  {
    if ys != [] {
      assert ([x] + ys)[1..] == [ys[0]] + ys[1..];
      JoinHead(ys[0], ys[1..], sep);
    }
  }

  lemma {:induction false} PrefixedAppend(a: seq<string>, b: seq<string>, sep: string)
    ensures Prefixed(a + b, sep) == Prefixed(a, sep) + Prefixed(b, sep)
    decreases |a|
  {
    if a == [] {
      assert a + b == b;
    } else {
      assert (a + b)[1..] == a[1..] + b;
      PrefixedAppend(a[1..], b, sep);
    }
  }

  lemma PrefixedPiece(o: Option<string>, before: string, after: string)
    ensures Prefixed(Part(o, before, after), Bullet) == Piece(o, before, after)
  {
    if Truthy(o) {
      var x := before + o.value + after;
      assert Part(o, before, after)[1..] == [];
      assert Prefixed([x], Bullet) == Bullet + x + "";
    }
  }

  /** The status line reads "Downloading..." followed, each behind a
      bullet, by the percentage, the speed and the ETA, each only when it
      was found; with none of them it is just "Downloading...". */
  lemma StatusTextLayout(percent: Option<string>, speed: Option<string>, eta: Option<string>)
    ensures StatusText(percent, speed, eta) ==
      "Downloading..." + Piece(percent, "", "%") + Piece(speed, "", "") + Piece(eta, "ETA ", "")
  {
    var p, s, e := Part(percent, "", "%"), Part(speed, "", ""), Part(eta, "ETA ", "");
    calc {
      StatusText(percent, speed, eta);
      { assert StatusParts(percent, speed, eta) == ["Downloading..."] + (p + s + e); }
      Join(["Downloading..."] + (p + s + e), Bullet);
      { JoinHead("Downloading...", p + s + e, Bullet); }
      "Downloading..." + Prefixed(p + s + e, Bullet);
      { PrefixedAppend(p + s, e, Bullet); PrefixedAppend(p, s, Bullet); }
      "Downloading..." + (Prefixed(p, Bullet) + Prefixed(s, Bullet) + Prefixed(e, Bullet));
      { PrefixedPiece(percent, "", "%"); PrefixedPiece(speed, "", ""); PrefixedPiece(eta, "ETA ", ""); }
      "Downloading..." + (Piece(percent, "", "%") + Piece(speed, "", "") + Piece(eta, "ETA ", ""));
    }
  }
}

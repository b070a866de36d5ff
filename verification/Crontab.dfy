/**
 The managed block in a user's crontab: what the tool strips, what it adds, and that the user's own
 lines come through.
 */
module Crontab {
  const BLOCK_BEGIN := "# XteinkX3WebSyncTask BEGIN"
  const BLOCK_END := "# XteinkX3WebSyncTask END"
  const LEGACY_MARKER := "# XteinkX3WebSyncTask"
  const SYNC_FLAG := "--sync"

  // ---------------------------------------------------------------- lines

  predicate IsSpace(c: char) {
    c == ' ' || c == '\t' || IsBreak(c)
  }

  /** Characters `splitlines` ends a line at; "\r\n" is one break. */
  predicate IsBreak(c: char) {
    c in "\n\r\U{000B}\U{000C}\U{001C}\U{001D}\U{001E}\U{0085}\U{2028}\U{2029}"
  }

  function Stripped(s: string): string {
    if s == "" then ""
    else if IsSpace(s[0]) then Stripped(s[1..])
    else if IsSpace(s[|s| - 1]) then Stripped(s[..|s| - 1])
    else s
  }

  predicate Contains(s: string, part: string) {
    |part| <= |s| && (s[..|part|] == part || (s != "" && Contains(s[1..], part)))
  }

  datatype Kind = Begin | End | Legacy | Plain(sync: bool)

  function KindOf(line: string): Kind {
    if Stripped(line) == BLOCK_BEGIN then Begin
    else if Stripped(line) == BLOCK_END then End
    else if Stripped(line) == LEGACY_MARKER then Legacy
    else Plain(Contains(line, SYNC_FLAG))
  }

  // ---------------------------------------------------------------- stripping

  /** The loop's variables after a prefix of the lines. */
  datatype Scan = Scan(kept: seq<string>, inBlock: bool, skipNext: bool)

  function ScanLine(s: Scan, line: string): Scan {
    match KindOf(line)
    case Begin => s.(inBlock := true)
    case End => s.(inBlock := false)
    case Legacy => if s.inBlock then s else s.(skipNext := true)
    case Plain(sync) =>
      if s.inBlock then s
      else s.(kept := if s.skipNext && sync then s.kept else s.kept + [line], skipNext := false)
  }

  function ScanAll(lines: seq<string>): Scan {
    if lines == [] then Scan([], false, false) else ScanLine(ScanAll(lines[..|lines| - 1]), lines[|lines| - 1])
  }

  function Strip(lines: seq<string>): seq<string> {
    ScanAll(lines).kept
  }

  method StripManagedCronLines(lines: seq<string>) returns (kept: seq<string>)
    ensures kept == Strip(lines)
  {
    kept := [];
    var inBlock, skipNext := false, false;
    for i := 0 to |lines|
      invariant ScanAll(lines[..i]) == Scan(kept, inBlock, skipNext)
    {
      assert lines[..i + 1][..i] == lines[..i];
      var line := lines[i];
      if Stripped(line) == BLOCK_BEGIN { inBlock := true; continue; }
      if Stripped(line) == BLOCK_END { inBlock := false; continue; }
      if inBlock { continue; }
      if Stripped(line) == LEGACY_MARKER { skipNext := true; continue; }
      if skipNext {
        skipNext := false;
        if Contains(line, SYNC_FLAG) { continue; }
      }
      kept := kept + [line];
    }
    assert lines[..|lines|] == lines;
  }

  // ---------------------------------------------------------------- which lines are the user's

  /** A block opened before line `i` and not closed since. */
  ghost predicate InBlock(lines: seq<string>, i: nat)
    requires i <= |lines|
  {
    exists b :: 0 <= b < i && KindOf(lines[b]) == Begin && forall k :: b < k < i ==> KindOf(lines[k]) != End
  }

  /** The line is not the user's on its own account. */
  ghost predicate Passed(lines: seq<string>, k: nat)
    requires k < |lines|
  {
    !KindOf(lines[k]).Plain? || InBlock(lines, k)
  }

  /** Line `m` is a legacy marker outside any block, with nothing of the user's between it and line `i`. */
  ghost predicate Reaches(lines: seq<string>, m: nat, i: nat)
    requires m < i <= |lines|
  {
    KindOf(lines[m]) == Legacy && !InBlock(lines, m) && forall k :: m < k < i ==> Passed(lines, k)
  }

  /** A legacy marker precedes line `i` outside any block, with nothing of the user's in between. */
  ghost predicate AfterMarker(lines: seq<string>, i: nat)
    requires i <= |lines|
  {
    exists m :: 0 <= m < i && Reaches(lines, m, i)
  }

  ghost predicate UserLine(lines: seq<string>, i: nat)
    requires i < |lines|
  {
    KindOf(lines[i]).Plain? && !InBlock(lines, i) && !(AfterMarker(lines, i) && KindOf(lines[i]).sync)
  }

  lemma InBlockStep(lines: seq<string>, i: nat)
    requires i < |lines|
    ensures InBlock(lines, i + 1) <==> (KindOf(lines[i]) == Begin || (InBlock(lines, i) && KindOf(lines[i]) != End))
  {
    if InBlock(lines, i) && KindOf(lines[i]) != End {
      var b :| 0 <= b < i && KindOf(lines[b]) == Begin && forall k :: b < k < i ==> KindOf(lines[k]) != End;
      assert forall k :: b < k < i + 1 ==> KindOf(lines[k]) != End;
    }
  }

  lemma ReachesStep(lines: seq<string>, m: nat, i: nat)
    requires m < i < |lines|
    ensures Reaches(lines, m, i + 1) <==> Reaches(lines, m, i) && Passed(lines, i)
  {
  }

  lemma AfterMarkerStep(lines: seq<string>, i: nat)
    requires i < |lines|
    ensures AfterMarker(lines, i + 1) <==>
            (KindOf(lines[i]) == Legacy && !InBlock(lines, i)) || (AfterMarker(lines, i) && Passed(lines, i))
  {
    forall m | 0 <= m < i ensures Reaches(lines, m, i + 1) <==> Reaches(lines, m, i) && Passed(lines, i) {
      ReachesStep(lines, m, i);
    }
    assert Reaches(lines, i, i + 1) <==> KindOf(lines[i]) == Legacy && !InBlock(lines, i);
    if AfterMarker(lines, i) && Passed(lines, i) {
      var m :| 0 <= m < i && Reaches(lines, m, i);
      assert Reaches(lines, m, i + 1);
    }
    if AfterMarker(lines, i + 1) {
      var m :| 0 <= m < i + 1 && Reaches(lines, m, i + 1);
      if m < i { assert Reaches(lines, m, i) && AfterMarker(lines, i); }
    }
  }

  /** The user's lines among the first `n`, in order. */
  ghost function UserLines(lines: seq<string>, n: nat): seq<string>
    requires n <= |lines|
  {
    if n == 0 then [] else UserLines(lines, n - 1) + (if UserLine(lines, n - 1) then [lines[n - 1]] else [])
  }

  lemma {:induction false} ScanMeans(lines: seq<string>, n: nat)
    requires n <= |lines|
    ensures ScanAll(lines[..n]) == Scan(UserLines(lines, n), InBlock(lines, n), AfterMarker(lines, n))
  {
    if n > 0 {
      ScanMeans(lines, n - 1);
      assert lines[..n][..n - 1] == lines[..n - 1];
      InBlockStep(lines, n - 1);
      AfterMarkerStep(lines, n - 1);
    }
  }

  /** Stripping removes block lines, markers and the marked command, and nothing else. */
  lemma StripKeepsUserLines(lines: seq<string>)
    ensures Strip(lines) == UserLines(lines, |lines|)
  {
    ScanMeans(lines, |lines|);
    assert lines[..|lines|] == lines;
  }

  // ---------------------------------------------------------------- merging

  function MergedLines(lines: seq<string>, cmd: string): seq<string> {
    Strip(lines) + (if cmd == "" then [] else [BLOCK_BEGIN, cmd, BLOCK_END])
  }

  function JoinLines(lines: seq<string>): string {
    if lines == [] then ""
    else if |lines| == 1 then lines[0]
    else JoinLines(lines[..|lines| - 1]) + "\n" + lines[|lines| - 1]
  }

  /** `str.splitlines`: a line ends at a break; what follows the last break is a line unless it is empty. */
  function SplitLines(text: string): seq<string> {
    if text == "" then []
    else
      var i := LineEnd(text);
      if i == |text| then [text] else [text[..i]] + SplitLines(text[AfterEnd(text, i)..])
  }

  /** Where a line that ends at `i` is left behind. */
  function AfterEnd(text: string, i: nat): (n: nat)
    requires i < |text|
    ensures i < n <= |text|
  {
    if i + 1 < |text| && text[i] == '\r' && text[i + 1] == '\n' then i + 2 else i + 1
  }

  /** Where the first line of the text ends. */
  function LineEnd(text: string): (i: nat)
    ensures i <= |text| && (forall k :: 0 <= k < i ==> !IsBreak(text[k])) && (i < |text| ==> IsBreak(text[i]))
  {
    if text == "" || IsBreak(text[0]) then 0 else 1 + LineEnd(text[1..])
  }

  predicate OneLine(s: string) {
    forall k :: 0 <= k < |s| ==> !IsBreak(s[k])
  }

  function Merge(existing: string, cmd: string): string {
    JoinLines(MergedLines(SplitLines(existing), cmd)) + "\n"
  }

  method MergeCrontab(existing: string, cmd: string) returns (text: string)
    ensures text == Merge(existing, cmd)
  {
    var lines := SplitLines(existing);
    var kept := StripManagedCronLines(lines);
    if cmd != "" { kept := kept + [BLOCK_BEGIN, cmd, BLOCK_END]; } else { kept := kept + []; }
    var joined := JoinLines(kept);
    text := if joined != "" then joined + "\n" else "\n";
  }

  // ---------------------------------------------------------------- round trips on lines

  lemma {:induction false} StripPlain(lines: seq<string>)
    requires forall i :: 0 <= i < |lines| ==> KindOf(lines[i]).Plain?
    ensures ScanAll(lines) == Scan(lines, false, false)
  {
    if lines != [] {
      StripPlain(lines[..|lines| - 1]);
      assert lines == lines[..|lines| - 1] + [lines[|lines| - 1]];
    }
  }

  lemma {:induction false} KeptIsPlain(lines: seq<string>, x: string)
    requires x in Strip(lines)
    ensures KindOf(x).Plain? && x in lines
  {
    if lines != [] {
      var init, last := lines[..|lines| - 1], lines[|lines| - 1];
      assert lines == init + [last];
      if x in Strip(init) { KeptIsPlain(init, x); }
    }
  }

  lemma StrippedIsPlain(lines: seq<string>)
    ensures forall i :: 0 <= i < |Strip(lines)| ==> KindOf(Strip(lines)[i]).Plain? && Strip(lines)[i] in lines
  {
    forall i | 0 <= i < |Strip(lines)| ensures KindOf(Strip(lines)[i]).Plain? && Strip(lines)[i] in lines {
      KeptIsPlain(lines, Strip(lines)[i]);
    }
  }

  lemma StripIdempotent(lines: seq<string>)
    ensures Strip(Strip(lines)) == Strip(lines)
  {
    StrippedIsPlain(lines);
    StripPlain(Strip(lines));
  }

  lemma MarkerKinds()
    ensures KindOf(BLOCK_BEGIN) == Begin && KindOf(BLOCK_END) == End
  {
    assert Stripped(BLOCK_BEGIN) == BLOCK_BEGIN;
    assert Stripped(BLOCK_END) == BLOCK_END;
  }

  lemma ScanAppend(lines: seq<string>, x: string)
    ensures ScanAll(lines + [x]) == ScanLine(ScanAll(lines), x)
  {
    assert (lines + [x])[..|lines|] == lines;
  }

  /** A block adds nothing to what is kept, whatever its middle line says. */
  lemma ScanBlock(s: Scan, open: string, cmd: string, close: string)
    requires KindOf(open) == Begin && KindOf(close) == End
    ensures ScanLine(ScanLine(ScanLine(s, open), cmd), close).kept == s.kept
  {
  }

  lemma StripBlock(k: seq<string>, open: string, cmd: string, close: string)
    requires KindOf(open) == Begin && KindOf(close) == End
    ensures Strip(k + [open, cmd, close]) == Strip(k)
  {
    ScanAppend(k, open);
    ScanAppend(k + [open], cmd);
    ScanAppend(k + [open] + [cmd], close);
    ScanBlock(ScanAll(k), open, cmd, close);
    assert k + [open, cmd, close] == k + [open] + [cmd] + [close];
  }

  /** Whatever the command is, stripping a merged table gives what stripping the original gives. */
  lemma StripMerged(lines: seq<string>, cmd: string)
    ensures Strip(MergedLines(lines, cmd)) == Strip(lines)
  {
    StripIdempotent(lines);
    MarkerKinds();
    StripBlock(Strip(lines), BLOCK_BEGIN, cmd, BLOCK_END);
    assert Strip(lines) + [] == Strip(lines);
  }

  // ---------------------------------------------------------------- round trips on text

  lemma {:induction false} LineEndOf(line: string, rest: string)
    requires OneLine(line) && (rest == "" || IsBreak(rest[0]))
    ensures LineEnd(line + rest) == |line|
  {
    if line == "" {
      assert line + rest == rest;
    } else {
      assert (line + rest)[1..] == line[1..] + rest;
      LineEndOf(line[1..], rest);
    }
  }

  /** Text made of lines, each ended by a newline. */
  function Ended(lines: seq<string>): string {
    if lines == [] then "" else lines[0] + "\n" + Ended(lines[1..])
  }

  lemma {:induction false} JoinEnded(lines: seq<string>)
    requires lines != []
    ensures JoinLines(lines) + "\n" == Ended(lines)
    decreases |lines|
  {
    if |lines| > 1 {
      var init, last := lines[..|lines| - 1], lines[|lines| - 1];
      JoinEnded(init);
      EndedAppend(init, last);
      assert lines == init + [last];
      assert JoinLines(lines) + "\n" == (JoinLines(init) + "\n") + (last + "\n");
    } else {
      assert lines[1..] == [];
    }
  }

  lemma {:induction false} EndedAppend(lines: seq<string>, line: string)
    ensures Ended(lines + [line]) == Ended(lines) + (line + "\n")
  {
    if lines == [] {
      assert (lines + [line])[1..] == [];
    } else {
      EndedAppend(lines[1..], line);
      assert (lines + [line])[1..] == lines[1..] + [line];
    }
  }

  /** Splitting text printed line by line gives the lines back. */
  lemma {:induction false} SplitEnded(lines: seq<string>)
    requires forall i :: 0 <= i < |lines| ==> OneLine(lines[i])
    ensures SplitLines(Ended(lines)) == lines
  {
    if lines != [] {
      var line, rest := lines[0], Ended(lines[1..]);
      var text := line + "\n" + rest;
      assert text == line + ("\n" + rest);
      LineEndOf(line, "\n" + rest);
      assert text[..|line|] == line && text[|line| + 1..] == rest && text[|line|] == '\n';
      SplitEnded(lines[1..]);
    }
  }

  lemma {:induction false} SplitOneLine(text: string)
    ensures forall i :: 0 <= i < |SplitLines(text)| ==> OneLine(SplitLines(text)[i])
    decreases |text|
  {
    if text != "" {
      var i := LineEnd(text);
      if i < |text| { SplitOneLine(text[AfterEnd(text, i)..]); }
    }
  }

  lemma OneLineParts(s: string, t: string)
    requires OneLine(s) && OneLine(t)
    ensures OneLine(s + t)
  {
  }

  lemma BeginOneLine()
    ensures OneLine(BLOCK_BEGIN)
  {
    OneLineParts("# XteinkX3WebSyncTask", " BEGIN");
  }

  lemma EndOneLine()
    ensures OneLine(BLOCK_END)
  {
    OneLineParts("# XteinkX3WebSyncTask", " END");
  }

  /** The lines of a written table; an empty one is written as a single blank line. */
  function Written(lines: seq<string>): seq<string> {
    if lines == [] then [""] else lines
  }

  lemma MergedSplit(existing: string, cmd: string)
    requires OneLine(cmd)
    ensures SplitLines(Merge(existing, cmd)) == Written(MergedLines(SplitLines(existing), cmd))
  {
    var lines, merged := SplitLines(existing), MergedLines(SplitLines(existing), cmd);
    SplitOneLine(existing);
    StrippedIsPlain(lines);
    BeginOneLine();
    EndOneLine();
    forall i | 0 <= i < |merged| ensures OneLine(merged[i]) {
      if i < |Strip(lines)| { assert Strip(lines)[i] in lines; }
    }
    if merged == [] {
      assert Ended([""]) == "\n" by { assert [""][1..] == []; }
      SplitEnded([""]);
    } else {
      JoinEnded(merged);
      SplitEnded(merged);
    }
  }

  /** Registering twice is registering once. */
  lemma RegisterTwice(existing: string, cmd: string)
    requires OneLine(cmd) && cmd != ""
    ensures Merge(Merge(existing, cmd), cmd) == Merge(existing, cmd)
  {
    MergedSplit(existing, cmd);
    StripMerged(SplitLines(existing), cmd);
  }

  /** Unregistering after registering leaves exactly the user's lines; when there are none, one blank line. */
  lemma UnregisterGivesBack(existing: string, cmd: string)
    requires OneLine(cmd) && cmd != ""
    ensures SplitLines(Merge(Merge(existing, cmd), "")) ==
        Written(UserLines(SplitLines(existing), |SplitLines(existing)|))
  {
    var lines := SplitLines(existing);
    MergedSplit(existing, cmd);
    MergedSplit(Merge(existing, cmd), "");
    StripMerged(lines, cmd);
    StripKeepsUserLines(lines);
    assert Strip(lines) + [] == Strip(lines);
  }

  /** A table the tool never touched comes back line for line. */
  lemma ForeignTableComesBack(existing: string, cmd: string)
    requires OneLine(cmd) && cmd != ""
    requires forall i :: 0 <= i < |SplitLines(existing)| ==> KindOf(SplitLines(existing)[i]).Plain?
    ensures SplitLines(Merge(Merge(existing, cmd), "")) == Written(SplitLines(existing))
  {
    UnregisterGivesBack(existing, cmd);
    StripKeepsUserLines(SplitLines(existing));
    StripPlain(SplitLines(existing));
  }
}

/**
 The crontab as text: what splitting and stripping mean, and the exact text that is written.
 */
module CrontabText {
  import opened Crontab

  // ---------------------------------------------------------------- characters

  /** `str.strip`: what is left begins and ends with no white space, and only white space was taken. */
  lemma {:induction false} StrippedIs(s: string) returns (i: nat, j: nat)
    ensures i <= j <= |s| && Stripped(s) == s[i..j]
    ensures forall k :: (0 <= k < i || j <= k < |s|) ==> IsSpace(s[k])
    ensures i < j ==> !IsSpace(s[i]) && !IsSpace(s[j - 1])
    decreases |s|
  {
    if s == "" {
      i, j := 0, 0;
    } else if IsSpace(s[0]) {
      i, j := StrippedIs(s[1..]);
      assert s[1..][i..j] == s[i + 1..j + 1];
      i, j := i + 1, j + 1;
    } else if IsSpace(s[|s| - 1]) {
      i, j := StrippedIs(s[..|s| - 1]);
      assert s[..|s| - 1][i..j] == s[i..j];
    } else {
      i, j := 0, |s|;
    }
  }

  predicate StandsAt(s: string, part: string, k: nat) {
    k + |part| <= |s| && s[k..k + |part|] == part
  }

  /** `part in s`. */
  lemma {:induction false} ContainsIff(s: string, part: string)
    ensures Contains(s, part) <==> exists k: nat :: StandsAt(s, part, k)
  {
    if |part| <= |s| && s[..|part|] == part {
      assert StandsAt(s, part, 0);
    } else if s != "" {
      ContainsIff(s[1..], part);
      if k: nat :| StandsAt(s[1..], part, k) {
        assert s[k + 1..k + 1 + |part|] == s[1..][k..k + |part|];
        assert StandsAt(s, part, k + 1);
      }
      if k: nat :| StandsAt(s, part, k) {
        assert k > 0 ==> s[1..][k - 1..k - 1 + |part|] == s[k..k + |part|];
        assert k > 0 && StandsAt(s[1..], part, k - 1);
      }
    }
  }

  // ---------------------------------------------------------------- lines

  /** What ends a line: one break character, or a carriage return and a newline together. */
  predicate IsEnd(e: string) {
    (|e| == 1 && IsBreak(e[0])) || (|e| == 2 && e[0] == '\r' && e[1] == '\n')
  }

  /** `lines` with the endings `ends` make up the text: no line holds a break, only the last may lack an ending and is
      not empty then, and a carriage return is not taken without the newline that follows it. */
  ghost predicate MadeOf(text: string, lines: seq<string>, ends: seq<string>)
    decreases |lines|
  {
    |lines| == |ends| &&
    if lines == [] then text == ""
    else
      var n := |lines[0]| + |ends[0]|;
      && OneLine(lines[0]) && n <= |text| && text[..n] == lines[0] + ends[0]
      && (if ends[0] == "" then lines[0] != "" && n == |text| else IsEnd(ends[0]))
      && (|ends[0]| == 1 && ends[0][0] == '\r' && n < |text| ==> text[n] != '\n')
      && MadeOf(text[n..], lines[1..], ends[1..])
  }

  lemma MadeCons(text: string, i: nat, lines: seq<string>, ends: seq<string>)
    requires i < |text| && i == LineEnd(text)
    requires MadeOf(text[AfterEnd(text, i)..], lines, ends)
    ensures MadeOf(text, [text[..i]] + lines, [text[i..AfterEnd(text, i)]] + ends)
  {
    var n := AfterEnd(text, i);
    assert text[..n] == text[..i] + text[i..n];
    assert ([text[..i]] + lines)[1..] == lines && ([text[i..n]] + ends)[1..] == ends;
  }

  /** Splitting a text gives lines it is made of. */
  lemma {:induction false} SplitMakes(text: string) returns (ends: seq<string>)
    ensures MadeOf(text, SplitLines(text), ends)
    decreases |text|
  {
    ends := [];
    if text != "" {
      var i := LineEnd(text);
      if i == |text| {
        ends := [""];
        MadeOfOne(text);
      } else {
        var rest := SplitMakes(text[AfterEnd(text, i)..]);
        ends := [text[i..AfterEnd(text, i)]] + rest;
        MadeCons(text, i, SplitLines(text[AfterEnd(text, i)..]), rest);
      }
    }
  }

  lemma MadeOfOne(text: string)
    requires text != "" && OneLine(text)
    ensures MadeOf(text, [text], [""])
  {
    assert text[..|text|] == text + "" && text[|text|..] == "";
    assert [text][1..] == [] && [""][1..] == [];
  }

  /** In a text made of lines the first one ends where it should, and is left behind where it should. */
  lemma FirstLine(text: string, line: string, end: string)
    requires OneLine(line) && |line| + |end| <= |text| && text[..|line| + |end|] == line + end
    requires if end == "" then |line| == |text| else IsEnd(end)
    requires |end| == 1 && end[0] == '\r' && |line| + 1 < |text| ==> text[|line| + 1] != '\n'
    ensures LineEnd(text) == |line| && text[..|line|] == line
    ensures end != "" ==> AfterEnd(text, |line|) == |line| + |end|
  {
    var both := line + end;
    forall k | 0 <= k < |line| ensures text[k] == line[k] { assert text[k] == both[k]; }
    forall k | 0 <= k < |end| ensures text[|line| + k] == end[k] { assert text[|line| + k] == both[|line| + k]; }
  }

  /** And there is only one way to split a text like that. */
  lemma {:induction false} MadeOnce(text: string, lines: seq<string>, ends: seq<string>)
    requires MadeOf(text, lines, ends)
    ensures lines == SplitLines(text)
    decreases |lines|
  {
    if lines != [] {
      var n := |lines[0]| + |ends[0]|;
      FirstLine(text, lines[0], ends[0]);
      MadeOnce(text[n..], lines[1..], ends[1..]);
      assert lines == [lines[0]] + lines[1..];
      if ends[0] == "" { assert text[..n] == text; }
    }
  }

  // ---------------------------------------------------------------- what is written

  /** The written table, as text: the user's lines and the block around the command, or the user's lines alone when
      there is none, each ended by a newline; with nothing to write, one blank line. */
  lemma WrittenTable(existing: string, cmd: string)
    requires OneLine(cmd)
    ensures var lines := SplitLines(existing);
      var table := UserLines(lines, |lines|) + if cmd == "" then [] else [BLOCK_BEGIN, cmd, BLOCK_END];
      && Merge(existing, cmd) == Ended(if table == [] then [""] else table)
      && SplitLines(Merge(existing, cmd)) == if table == [] then [""] else table
  {
    var lines := SplitLines(existing);
    StripKeepsUserLines(lines);
    MergedSplit(existing, cmd);
    if MergedLines(lines, cmd) == [] {
      assert Ended([""]) == "\n" by { assert [""][1..] == []; }
    } else {
      JoinEnded(MergedLines(lines, cmd));
    }
  }
}

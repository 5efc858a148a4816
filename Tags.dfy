/** The line-anchored tag scanner of backend.py: `get_text` keeps the
    narrative lines of a completion, `get_info` keeps its planning
    annotation. A line is classified by what it starts with, never by
    balanced-tag parsing. */
module Tags {
  import opened Strings

  const InfoOpen: string := "<info>"
  const InfoClose: string := "</info>"
  const EndMarker: string := "<end>"

  predicate IsOpen(line: string) { StartsWith(line, InfoOpen) }
  predicate IsClose(line: string) { StartsWith(line, InfoClose) }
  predicate IsEnd(line: string) { StartsWith(line, EndMarker) }

  /** The three markers differ in their second character, so a line starts
      with at most one of them and the order of the tests does not matter. */
  lemma TagsExclusive(line: string)
    ensures !(IsOpen(line) && IsClose(line))
    ensures !(IsOpen(line) && IsEnd(line))
    ensures !(IsClose(line) && IsEnd(line))
  {
    if IsOpen(line) { assert line[1] == InfoOpen[1] == 'i'; }
    if IsClose(line) { assert line[1] == InfoClose[1] == '/'; }
    if IsEnd(line) { assert line[1] == EndMarker[1] == 'e'; }
  }

  /** The scanner's `in_info` flag just before it reads line `i`: set by
      the last opening line, cleared by the last closing line, false
      before either. */
  function InInfoBefore(lines: seq<string>, i: nat): bool
    requires i <= |lines|
  {
    if i == 0 then false
    else if IsOpen(lines[i - 1]) then true
    else if IsClose(lines[i - 1]) then false
    else InInfoBefore(lines, i - 1)
  }

  /** No line among the first `n` starts with the end marker. */
  predicate EndFree(lines: seq<string>, n: nat)
    requires n <= |lines|
  {
    forall j :: 0 <= j < n ==> !IsEnd(lines[j])
  }

  /** `get_text` keeps line `i`: it is reached (no end marker up to and
      including it), it is no info tag, and it lies outside info regions. */
  predicate KeepsText(lines: seq<string>, i: nat)
    requires i < |lines|
  {
    EndFree(lines, i + 1) && !IsOpen(lines[i]) && !IsClose(lines[i])
    && !InInfoBefore(lines, i)
  }

  /** `get_info` keeps line `i`: it is no info tag and lies inside an
      info region. */
  predicate KeepsInfo(lines: seq<string>, i: nat)
    requires i < |lines|
  {
    !IsOpen(lines[i]) && !IsClose(lines[i]) && InInfoBefore(lines, i)
  }

  /** The lines `get_text` has collected after reading `n` lines. */
  function TextLines(lines: seq<string>, n: nat): (kept: seq<string>)
    requires n <= |lines|
  {
    if n == 0 then []
    else TextLines(lines, n - 1) + (if KeepsText(lines, n - 1) then [lines[n - 1]] else [])
  }

  /** The lines `get_info` has collected after reading `n` lines. */
  function InfoLines(lines: seq<string>, n: nat): (kept: seq<string>)
    requires n <= |lines|
  {
    if n == 0 then []
    else InfoLines(lines, n - 1) + (if KeepsInfo(lines, n - 1) then [lines[n - 1]] else [])
  }

  /** What `get_text(content)` returns. */
  function Text(content: string): string {
    var lines := Split(content);
    Strip(Join(TextLines(lines, |lines|)))
  }

  /** `Text` in terms of an already split content. */
  lemma TextOfLines(content: string, lines: seq<string>)
    requires Split(content) == lines
    ensures Text(content) == Strip(Join(TextLines(lines, |lines|)))
  {
  }

  /** What `get_info(content)` returns. */
  function Info(content: string): string {
    var lines := Split(content);
    Strip(Join(InfoLines(lines, |lines|)))
  }

  /** backend.py `get_text`: one forward pass over the lines, stopping at
      the first line that starts with the end marker. */
  method GetText(content: string) returns (text: string)
    ensures text == Text(content)
  {
    var lines := Split(content);
    var inInfo := false;
    var filtered: seq<string> := [];
    for i := 0 to |lines|
      invariant inInfo == InInfoBefore(lines, i)
      invariant EndFree(lines, i)
      invariant filtered == TextLines(lines, i)
    {
      var line := lines[i];
      TagsExclusive(line);
      assert EndFree(lines, i + 1) == (EndFree(lines, i) && !IsEnd(line));
      if StartsWith(line, InfoOpen) {
        inInfo := true;
      } else if StartsWith(line, InfoClose) {
        inInfo := false;
      } else if StartsWith(line, EndMarker) {
        TextLinesAfterEnd(lines, i + 1, |lines|);
        assert filtered == TextLines(lines, |lines|);
        break;
      } else if !inInfo {
        filtered := filtered + [line];
      }
    }
    assert filtered == TextLines(lines, |lines|);
    text := Strip(Join(filtered));
  }

  /** backend.py `get_info`: one forward pass over the lines, keeping
      those inside info regions. */
  method GetInfo(content: string) returns (info: string)
    ensures info == Info(content)
  {
    var lines := Split(content);
    var inInfo := false;
    var infoLines: seq<string> := [];
    for i := 0 to |lines|
      invariant inInfo == InInfoBefore(lines, i)
      invariant infoLines == InfoLines(lines, i)
    {
      var line := lines[i];
      if StartsWith(line, InfoOpen) {
        inInfo := true;
      } else if StartsWith(line, InfoClose) {
        inInfo := false;
      } else if inInfo {
        infoLines := infoLines + [line];
      }
    }
    assert infoLines == InfoLines(lines, |lines|);
    info := Strip(Join(infoLines));
  }

  // ---------------------------------------------------------------------
  // The end marker

  /** Once an end line has been read, `get_text` collects nothing more. */
  lemma {:induction false} TextLinesAfterEnd(lines: seq<string>, k: nat, n: nat)
    requires k <= n <= |lines|
    requires !EndFree(lines, k)
    ensures TextLines(lines, n) == TextLines(lines, k)
    decreases n
  {
    if n > k {
      TextLinesAfterEnd(lines, k, n - 1);
      assert !KeepsText(lines, n - 1);
    }
  }

  /** The scanner's state after `n` lines depends on those lines only. */
  lemma {:induction false} ScanDependsOnPrefix(a: seq<string>, b: seq<string>, n: nat)
    requires n <= |a| && n <= |b| && a[..n] == b[..n]
    ensures InInfoBefore(a, n) == InInfoBefore(b, n)
    ensures EndFree(a, n) == EndFree(b, n)
    ensures TextLines(a, n) == TextLines(b, n)
    ensures InfoLines(a, n) == InfoLines(b, n)
    decreases n
  {
    if n > 0 {
      assert a[..n - 1] == a[..n][..n - 1] && b[..n - 1] == b[..n][..n - 1];
      assert a[n - 1] == a[..n][n - 1] && b[n - 1] == b[..n][n - 1];
      ScanDependsOnPrefix(a, b, n - 1);
      assert EndFree(a, n) == (EndFree(a, n - 1) && !IsEnd(a[n - 1]));
      assert EndFree(b, n) == (EndFree(b, n - 1) && !IsEnd(b[n - 1]));
    }
  }

  /** `get_text` collects nothing from an end line onwards. */
  lemma TextStopsAt(x: seq<string>, j: nat)
    requires j < |x| && IsEnd(x[j])
    ensures TextLines(x, |x|) == TextLines(x, j)
  {
    assert !EndFree(x, j + 1);
    TextLinesAfterEnd(x, j + 1, |x|);
    assert !KeepsText(x, j);
  }

  /** Two scans that agree before line `j` and both meet an end line at
      `j` collect the same narrative lines. */
  lemma EndLineCutsText(x: seq<string>, y: seq<string>, j: nat)
    requires j < |x| && j < |y| && x[..j] == y[..j]
    requires IsEnd(x[j]) && IsEnd(y[j])
    ensures TextLines(x, |x|) == TextLines(y, |y|)
  {
    ScanDependsOnPrefix(x, y, j);
    TextStopsAt(x, j);
    TextStopsAt(y, j);
  }

  /** An end line of `la` is still an end line, at the same place, when
      the lines `lb` are fused onto the end of `la`. */
  lemma EndLineSurvivesFuse(la: seq<string>, lb: seq<string>, j: nat)
    requires |la| >= 1 && |lb| >= 1 && j < |la| && IsEnd(la[j])
    ensures var lab := Fuse(la, lb);
            j < |lab| && lab[..j] == la[..j] && IsEnd(lab[j])
  {
    var lab := Fuse(la, lb);
    assert lab[..j] == la[..j];
    if j < |la| - 1 {
      assert lab[j] == la[j];
    } else {
      assert lab[j] == la[j] + lb[0];
      StartsWithExtend(la[j], lb[0], EndMarker);
    }
  }

  /** Everything after a line that starts with the end marker is ignored by
      `get_text`: appending any text leaves its result unchanged. */
  lemma TextIgnoresAfterEnd(a: string, b: string)
    requires !EndFree(Split(a), |Split(a)|)
    ensures Text(a + b) == Text(a)
  {
    var la, lb := Split(a), Split(b);
    var lab := Fuse(la, lb);
    assert Split(a + b) == lab by {
      SplitConcat(a, b);
    }
    var j :| 0 <= j < |la| && IsEnd(la[j]);
    EndLineSurvivesFuse(la, lb, j);
    EndLineCutsText(la, lab, j);
    TextOfLines(a, la);
    TextOfLines(a + b, lab);
  }

  // ---------------------------------------------------------------------
  // Order and provenance of the kept lines

  /** Before stripping, the narrative lines are the input lines with some
      dropped and the order kept. */
  lemma {:induction false} TextLinesSubsequence(lines: seq<string>, n: nat)
    requires n <= |lines|
    ensures IsSubsequence(TextLines(lines, n), lines[..n])
    decreases n
  {
    if n > 0 {
      TextLinesSubsequence(lines, n - 1);
      var prev, kept, upto := TextLines(lines, n - 1), TextLines(lines, n), lines[..n];
      assert upto[..n - 1] == lines[..n - 1];
      if KeepsText(lines, n - 1) {
        assert kept[..|kept| - 1] == prev;
        assert kept[|kept| - 1] == upto[n - 1];
      } else {
        assert kept == prev;
        if kept != [] {
          assert IsSubsequence(kept, upto[..n - 1]);
        }
      }
    }
  }

  /** Before stripping, the info lines are the input lines with some dropped
      and the order kept. */
  lemma {:induction false} InfoLinesSubsequence(lines: seq<string>, n: nat)
    requires n <= |lines|
    ensures IsSubsequence(InfoLines(lines, n), lines[..n])
    decreases n
  {
    if n > 0 {
      InfoLinesSubsequence(lines, n - 1);
      var prev, kept, upto := InfoLines(lines, n - 1), InfoLines(lines, n), lines[..n];
      assert upto[..n - 1] == lines[..n - 1];
      if KeepsInfo(lines, n - 1) {
        assert kept[..|kept| - 1] == prev;
        assert kept[|kept| - 1] == upto[n - 1];
      } else {
        assert kept == prev;
        if kept != [] {
          assert IsSubsequence(kept, upto[..n - 1]);
        }
      }
    }
  }

  /** The narrative text is never longer than the completion it came from. */
  lemma TextNoLonger(content: string)
    ensures |Text(content)| <= |content|
  {
    var lines := Split(content);
    TextLinesSubsequence(lines, |lines|);
    assert lines[..|lines|] == lines;
    JoinSubsequenceNoLonger(TextLines(lines, |lines|), lines);
    JoinSplit(content);
  }

  /** The info annotation is never longer than the segment it came from. */
  lemma InfoNoLonger(content: string)
    ensures |Info(content)| <= |content|
  {
    var lines := Split(content);
    InfoLinesSubsequence(lines, |lines|);
    assert lines[..|lines|] == lines;
    JoinSubsequenceNoLonger(InfoLines(lines, |lines|), lines);
    JoinSplit(content);
  }

  /** No narrative line `get_text` collects starts with a tag. */
  lemma {:induction false} TextLinesTagFree(lines: seq<string>, n: nat)
    requires n <= |lines|
    ensures forall k :: 0 <= k < |TextLines(lines, n)| ==> Untagged(TextLines(lines, n)[k])
    decreases n
  {
    if n > 0 {
      TextLinesTagFree(lines, n - 1);
      if KeepsText(lines, n - 1) {
        var prev := TextLines(lines, n - 1);
        assert TextLines(lines, n) == prev + [lines[n - 1]];
        forall k | 0 <= k < |TextLines(lines, n)|
          ensures Untagged(TextLines(lines, n)[k])
        {
          if k < |prev| {
            assert TextLines(lines, n)[k] == prev[k];
          }
        }
      }
    }
  }

  /** No info line `get_info` collects starts with an info tag. */
  lemma {:induction false} InfoLinesTagFree(lines: seq<string>, n: nat)
    requires n <= |lines|
    ensures forall k :: 0 <= k < |InfoLines(lines, n)| ==>
              !IsOpen(InfoLines(lines, n)[k]) && !IsClose(InfoLines(lines, n)[k])
    decreases n
  {
    if n > 0 {
      InfoLinesTagFree(lines, n - 1);
      if KeepsInfo(lines, n - 1) {
        var prev := InfoLines(lines, n - 1);
        assert InfoLines(lines, n) == prev + [lines[n - 1]];
        forall k | 0 <= k < |InfoLines(lines, n)|
          ensures !IsOpen(InfoLines(lines, n)[k]) && !IsClose(InfoLines(lines, n)[k])
        {
          if k < |prev| {
            assert InfoLines(lines, n)[k] == prev[k];
          }
        }
      }
    }
  }

  /** A line that is no tag of any kind. */
  predicate Untagged(line: string) {
    !IsOpen(line) && !IsClose(line) && !IsEnd(line)
  }

  lemma {:induction false} TextLinesAllUntagged(lines: seq<string>, n: nat)
    requires n <= |lines|
    requires forall k :: 0 <= k < |lines| ==> Untagged(lines[k])
    ensures !InInfoBefore(lines, n) && EndFree(lines, n)
    ensures TextLines(lines, n) == lines[..n]
    decreases n
  {
    if n > 0 {
      TextLinesAllUntagged(lines, n - 1);
      assert lines[..n] == lines[..n - 1] + [lines[n - 1]];
    }
  }

  /** Text without any tag line is returned whole, only stripped. */
  lemma TextOfUntagged(content: string)
    requires forall k :: 0 <= k < |Split(content)| ==> Untagged(Split(content)[k])
    ensures Text(content) == Strip(content)
  {
    var lines := Split(content);
    TextLinesAllUntagged(lines, |lines|);
    assert lines[..|lines|] == lines;
    JoinSplit(content);
  }

  // ---------------------------------------------------------------------
  // Info regions

  /** Line `j` opened an info region that no line before `i` has closed. */
  predicate OpenSince(lines: seq<string>, j: nat, i: nat)
    requires i <= |lines|
  {
    j < i && IsOpen(lines[j]) && forall m :: j < m < i ==> !IsClose(lines[m])
  }

  /** The `in_info` flag is set exactly when some earlier line opened an
      info region and no line since has closed it. */
  lemma {:induction false} InInfoBeforeIff(lines: seq<string>, i: nat)
    requires i <= |lines|
    ensures InInfoBefore(lines, i) <==> exists j :: OpenSince(lines, j, i)
    decreases i
  {
    if i > 0 {
      InInfoBeforeIff(lines, i - 1);
      if IsOpen(lines[i - 1]) {
        assert OpenSince(lines, i - 1, i);
      } else if IsClose(lines[i - 1]) {
        forall j: nat | j < i ensures !OpenSince(lines, j, i) {
          if j < i - 1 {
            assert IsClose(lines[i - 1]);
          }
        }
      } else {
        if InInfoBefore(lines, i - 1) {
          var j :| OpenSince(lines, j, i - 1);
          assert OpenSince(lines, j, i);
        }
        if exists j :: OpenSince(lines, j, i) {
          var j :| OpenSince(lines, j, i);
          assert OpenSince(lines, j, i - 1);
        }
      }
    }
  }

  lemma {:induction false} InfoLinesWithoutOpen(lines: seq<string>, n: nat)
    requires n <= |lines|
    requires forall k :: 0 <= k < |lines| ==> !IsOpen(lines[k])
    ensures !InInfoBefore(lines, n) && InfoLines(lines, n) == []
    decreases n
  {
    if n > 0 {
      InfoLinesWithoutOpen(lines, n - 1);
    }
  }

  /** Without an opening info line there is no annotation. */
  lemma InfoWithoutOpen(content: string)
    requires forall k :: 0 <= k < |Split(content)| ==> !IsOpen(Split(content)[k])
    ensures Info(content) == ""
  {
    InfoLinesWithoutOpen(Split(content), |Split(content)|);
  }

  /** The lines with line `k` taken out. */
  function Without(lines: seq<string>, k: nat): seq<string>
    requires k < |lines|
  {
    lines[..k] + lines[k + 1..]
  }

  /** The scanner's state after reading the first `n` lines of `a` is its
      state after the first `m` lines of `b`. */
  predicate SameScan(a: seq<string>, n: nat, b: seq<string>, m: nat)
    requires n <= |a| && m <= |b|
  {
    InInfoBefore(a, n) == InInfoBefore(b, m)
    && EndFree(a, n) == EndFree(b, m)
    && TextLines(a, n) == TextLines(b, m)
    && InfoLines(a, n) == InfoLines(b, m)
  }

  lemma StrayCloseAt(lines: seq<string>, k: nat)
    requires k < |lines| && IsClose(lines[k]) && !InInfoBefore(lines, k)
    ensures SameScan(Without(lines, k), k, lines, k + 1)
  {
    var d := Without(lines, k);
    TagsExclusive(lines[k]);
    assert d[..k] == lines[..k];
    ScanDependsOnPrefix(d, lines, k);
    assert !KeepsText(lines, k) && !KeepsInfo(lines, k);
    assert EndFree(lines, k + 1) == (EndFree(lines, k) && !IsEnd(lines[k]));
  }

  lemma StrayCloseStep(lines: seq<string>, k: nat, i: nat)
    requires k < |lines| && k + 1 < i <= |lines|
    requires SameScan(Without(lines, k), i - 2, lines, i - 1)
    ensures SameScan(Without(lines, k), i - 1, lines, i)
  {
    var d := Without(lines, k);
    assert d[i - 2] == lines[i - 1];
    assert EndFree(lines, i) == (EndFree(lines, i - 1) && !IsEnd(lines[i - 1]));
    assert EndFree(d, i - 1) == (EndFree(d, i - 2) && !IsEnd(d[i - 2]));
    assert KeepsText(d, i - 2) == KeepsText(lines, i - 1);
    assert KeepsInfo(d, i - 2) == KeepsInfo(lines, i - 1);
  }

  /** A closing info line read with no region open has no effect: past
      it, the scan of the lines without it is one line behind and
      otherwise identical; at `i == |lines|` neither the narrative nor the
      info lines change when it is dropped. */
  lemma {:induction false} StrayCloseShift(lines: seq<string>, k: nat, i: nat)
    requires k < |lines| && IsClose(lines[k]) && !InInfoBefore(lines, k)
    requires k < i <= |lines|
    ensures SameScan(Without(lines, k), i - 1, lines, i)
    decreases i
  {
    if i == k + 1 {
      StrayCloseAt(lines, k);
    } else {
      StrayCloseShift(lines, k, i - 1);
      StrayCloseStep(lines, k, i);
    }
  }

  // ---------------------------------------------------------------------
  // The completion as the engine sees it

  lemma {:induction false} ScanAfterBlankLine(lines: seq<string>, i: nat)
    requires i <= |lines|
    ensures InInfoBefore([""] + lines, i + 1) == InInfoBefore(lines, i)
    ensures EndFree([""] + lines, i + 1) == EndFree(lines, i)
    ensures TextLines([""] + lines, i + 1) == [""] + TextLines(lines, i)
    decreases i
  {
    var bl := [""] + lines;
    assert !IsOpen("") && !IsClose("") && !IsEnd("");
    if i > 0 {
      ScanAfterBlankLine(lines, i - 1);
      assert bl[i] == lines[i - 1];
      assert EndFree(bl, i + 1) == (EndFree(bl, i) && !IsEnd(bl[i]));
      assert EndFree(lines, i) == (EndFree(lines, i - 1) && !IsEnd(lines[i - 1]));
    } else {
      assert TextLines(bl, 1) == [""];
    }
  }

  /** The narrative of lines headed by a blank line is that of the lines
      alone once stripped. */
  lemma JoinBlankFirst(kept: seq<string>)
    requires kept != []
    ensures Join([""] + kept) == "\n" + Join(kept)
  {
    JoinCons("", kept);
  }

  /** A blank first line does not survive `strip()`. */
  lemma StripJoinBlankFirst(kept: seq<string>)
    ensures Strip(Join([""] + kept)) == Strip(Join(kept))
  {
    if kept == [] {
      assert [""] + kept == [""];
    } else {
      JoinBlankFirst(kept);
      StripLeadingNewline(Join(kept));
    }
  }

  lemma StripTextAfterBlankLine(lines: seq<string>)
    ensures Strip(Join(TextLines([""] + lines, |lines| + 1)))
         == Strip(Join(TextLines(lines, |lines|)))
  {
    ScanAfterBlankLine(lines, |lines|);
    StripJoinBlankFirst(TextLines(lines, |lines|));
  }

  /** The engine prefixes every completion with a newline before scanning
      it; the narrative text is the same as that of the bare completion. */
  lemma TextIgnoresLeadingNewline(response: string)
    ensures Text("\n" + response) == Text(response)
  {
    var lines := Split(response);
    var blankFirst := [""] + lines;
    var n := |lines| + 1;
    assert |blankFirst| == n;
    var stripped := Strip(Join(TextLines(blankFirst, n)));
    assert Text("\n" + response) == stripped by {
      SplitAfterNewline(response);
      TextOfLines("\n" + response, blankFirst);
    }
    assert stripped == Text(response) by {
      TextOfLines(response, lines);
      StripTextAfterBlankLine(lines);
    }
  }

  lemma NotStartsWith(line: string, prefix: string)
    requires |line| > 0 && |prefix| > 0 && line[0] != prefix[0]
    ensures !StartsWith(line, prefix)
  {
    if |prefix| <= |line| {
      assert line[..|prefix|][0] != prefix[0];
    }
  }

  /** A line that does not start with `<` is no tag of any kind. */
  lemma UntaggedUnlessAngle(line: string)
    requires |line| > 0 && line[0] != '<'
    ensures Untagged(line)
  {
    NotStartsWith(line, InfoOpen);
    NotStartsWith(line, InfoClose);
    NotStartsWith(line, EndMarker);
  }

  /** Two newline-free lines. */
  lemma SplitTwoLines(a: string, b: string)
    requires '\n' !in a && '\n' !in b
    ensures Split(a + "\n" + b) == [a, b]
  {
    SplitOneLine(a);
    SplitOneLine(b);
    SplitAround(a, b);
  }

  /** Two untagged lines are kept as they are. */
  lemma TextOfTwoUntagged(a: string, b: string)
    requires '\n' !in a && '\n' !in b && Untagged(a) && Untagged(b)
    ensures Text(a + "\n" + b) == Strip(a + "\n" + b)
  {
    SplitTwoLines(a, b);
    TextOfUntagged(a + "\n" + b);
  }

  /** A line after an opening tag is inside the info region. */
  lemma TextOfOpenThenLine(a: string, b: string)
    requires '\n' !in a && '\n' !in b && IsOpen(a) && !IsClose(b)
    ensures Text(a + "\n" + b) == ""
  {
    var lines := [a, b];
    assert TextLines(lines, 2) == [] by {
      assert TextLines(lines, 1) == [];
      assert InInfoBefore(lines, 1);
    }
    assert Text(a + "\n" + b) == Strip(Join(TextLines(lines, 2))) by {
      SplitTwoLines(a, b);
      TextOfLines(a + "\n" + b, lines);
    }
  }

  lemma StripIndentedOpen(x: string)
    requires x == "  <info>\nhello"
    ensures Strip(x) == "<info>\nhello"
  {
    var indent, core := "  ", "<info>\nhello";
    assert indent + core + [] == x;
    assert AllSpace(indent) by {
      assert indent[0] == ' ' && indent[1] == ' ';
    }
    assert core[0] == '<' && core[|core| - 1] == 'o';
    StripExactly(indent, core, []);
  }

  lemma TextOfIndentedOpen(x: string)
    requires x == "  <info>\nhello"
    ensures Text(x) == Strip(x)
  {
    var a, b := "  <info>", "hello";
    UntaggedUnlessAngle(a);
    UntaggedUnlessAngle(b);
    assert a + "\n" + b == x;
    TextOfTwoUntagged(a, b);
  }

  lemma TextOfOpenHello(y: string)
    requires y == "<info>\nhello"
    ensures Text(y) == ""
  {
    assert "<info>" + "\n" + "hello" == y;
    assert IsOpen("<info>");
    UntaggedUnlessAngle("hello");
    TextOfOpenThenLine("<info>", "hello");
  }

  /** `get_text` is not idempotent, although stripping suggests it might
      be: a line indented before `<info>` is kept as narrative, and the
      final strip turns it into an opening tag for the next pass. */
  lemma TextNotIdempotent(x: string)
    requires x == "  <info>\nhello"
    ensures Text(x) == "<info>\nhello"
    ensures Text(Text(x)) == ""
  {
    TextOfIndentedOpen(x);
    StripIndentedOpen(x);
    TextOfOpenHello("<info>\nhello");
  }
}

/** The managed block: adding and removing it, on every text. */
module PamBlock {
  import opened PamText

  /** `block_text`. */
  const BLOCK_TEXT: string := Join(BLOCK_LINES)

  /** The text with a final newline added when it is non-empty and lacks one. */
  function WithNewline(s: string): string {
    if s == "" || Terminated(s) then s else s + "\n"
  }

  /** What `add_block` computes: the text without its blocks, terminated, and one fresh block. */
  function Added(content: string): string {
    WithNewline(OnePass(content)) + BLOCK_TEXT
  }

  /** `add_block`. */
  method AddBlock(content: string) returns (out: string)
    ensures out == Added(content)
  {
    var base := RemoveBlock(content);
    if base == "" {
      assert "" + BLOCK_TEXT == BLOCK_TEXT;
      return BLOCK_TEXT;
    }
    out := base;
    if !Terminated(out) {
      out := out + "\n";
    }
    out := out + BLOCK_TEXT;
  }

  // ---- The block's own lines -------------------------------------------------------------------

  lemma TrimTerminated(line: string)
    requires line != "" && !IsWhitespace(line[|line| - 1])
    ensures TrimEnd(line + "\n") == line
  {
    assert (line + "\n")[..|line|] == line;
  }

  /** The block opens with its BEGIN, closes with its END, and has no other marker. */
  lemma BlockMarkers()
    ensures IsBegin(BLOCK_LINES[0]) && IsEnd(BLOCK_LINES[4])
    ensures forall i :: 1 <= i < 4 ==> !IsBegin(BLOCK_LINES[i]) && !IsEnd(BLOCK_LINES[i])
    ensures !IsEnd(BLOCK_LINES[0]) && !IsBegin(BLOCK_LINES[4])
  {
    hide TrimEnd;
    assert BEGIN_MARKER[2] == '>' && END_MARKER[2] == '<' && COMMENT_LINE_1[2] == 'M' && COMMENT_LINE_2[2] == 'f';
    assert SNIPPET_LINE[0] == 's';
    TrimTerminated(BEGIN_MARKER);
    TrimTerminated(END_MARKER);
    TrimTerminated(SNIPPET_LINE);
    TrimTerminated(COMMENT_LINE_1);
    TrimTerminated(COMMENT_LINE_2);
  }

  ghost predicate NoNewline(s: string) {
    forall i :: 0 <= i < |s| ==> s[i] != '\n'
  }

  lemma FirstCommentIsOneLine()
    ensures NoNewline(COMMENT_LINE_1)
  {
  }

  lemma SecondCommentIsOneLine()
    ensures NoNewline(COMMENT_LINE_2)
  {
  }

  lemma BlockIsProper()
    ensures Proper(BLOCK_LINES) && Terminated(BLOCK_LINES[4])
  {
    hide TrimEnd, Join;
    FirstCommentIsOneLine();
    SecondCommentIsOneLine();
    assert NoNewline(BEGIN_MARKER) && NoNewline(END_MARKER) && NoNewline(SNIPPET_LINE);
  }

  // ---- Adding, removing, and doing it again ----------------------------------------------------

  lemma {:induction false} ProperAppend(a: seq<string>, b: seq<string>)
    requires Proper(a) && Proper(b) && (a != [] ==> Terminated(a[|a| - 1]))
    ensures Proper(a + b)
  {
  }

  lemma LastLineEnds(s: string)
    requires s != ""
    ensures var lines := SplitInclusive(s); lines != [] && (Terminated(lines[|lines| - 1]) <==> Terminated(s))
  {
    var lines := SplitInclusive(s);
    SplitIsProper(s);
    var n := |lines| - 1;
    JoinAppend(lines[..n], lines[n..]);
    assert lines == lines[..n] + lines[n..];
    assert Join(lines[n..]) == lines[n];
  }

  /** Lines with the last one ended are still lines, and have the same markers. */
  lemma EndedLines(lines: seq<string>)
    requires lines != [] && Proper(lines) && !Terminated(lines[|lines| - 1])
    ensures var ended := lines[..|lines| - 1] + [lines[|lines| - 1] + "\n"];
            Proper(ended) && (NoPair(lines) ==> NoPair(ended)) && Join(ended) == Join(lines) + "\n"
  {
    hide TrimEnd;
    var n := |lines| - 1;
    var ended := lines[..n] + [lines[n] + "\n"];
    TrimEndOfEnded(lines[n]);
    assert forall k :: 0 <= k < n ==> ended[k] == lines[k];
    JoinAppend(lines[..n], [lines[n]]);
    JoinAppend(lines[..n], [lines[n] + "\n"]);
    assert lines == lines[..n] + [lines[n]];
    JoinOfOne(lines[n]);
    JoinOfOne(lines[n] + "\n");
  }

  lemma JoinOfOne(line: string)
    ensures Join([line]) == line
  {
  }

  /** Ending the last line leaves every line ended, and no pair where there was none. */
  lemma SplitWithNewline(s: string)
    requires !HasPair(s)
    ensures var lines := SplitInclusive(WithNewline(s));
            Proper(lines) && (lines != [] ==> Terminated(lines[|lines| - 1])) && NoPair(lines)
  {
    hide SplitInclusive, NoPair, Proper;
    SplitIsProper(s);
    SplitIsProper(WithNewline(s));
    if s == "" {
      JoinIsEmpty(SplitInclusive(s));
    } else {
      LastLineEnds(s);
      LastLineEnds(WithNewline(s));
      if !Terminated(s) {
        var lines := SplitInclusive(s);
        EndedLines(lines);
        SplitOfJoin(lines[..|lines| - 1] + [lines[|lines| - 1] + "\n"]);
      }
    }
  }

  lemma JoinIsEmpty(lines: seq<string>)
    requires Proper(lines) && Join(lines) == ""
    ensures lines == []
  {
  }

  lemma TrimEndOfEnded(line: string)
    ensures TrimEnd(line + "\n") == TrimEnd(line)
  {
    assert (line + "\n")[..|line|] == line;
  }

  /** One pass over lines without a pair, followed by the block, drops the block again. */
  lemma RunOverBlock(lines: seq<string>)
    requires NoPair(lines)
    ensures Run([], lines + BLOCK_LINES) == lines
  {
    hide TrimEnd, NoPair, Run;
    assert [] + lines == lines;
    RunWithoutPair([], lines);
    RunAppend([], lines, BLOCK_LINES);
    assert BLOCK_LINES == BLOCK_LINES[..4] + [BLOCK_LINES[4]];
    RunAppend(lines, BLOCK_LINES[..4], [BLOCK_LINES[4]]);
    PushBlock(lines);
    CloseBlock(lines);
  }

  lemma CloseBlock(lines: seq<string>)
    ensures Run(lines + BLOCK_LINES[..4], [BLOCK_LINES[4]]) == lines
  {
    hide TrimEnd;
    BlockMarkers();
    var out := lines + BLOCK_LINES[..4];
    assert out[|lines|] == BLOCK_LINES[0];
    assert forall i :: |lines| < i < |out| ==> out[i] == BLOCK_LINES[i - |lines|];
    assert LastBegin(out) == |lines|;
    assert [BLOCK_LINES[4]][1..] == [];
    assert Push(out, BLOCK_LINES[4]) == lines;
  }

  lemma PushBlock(lines: seq<string>)
    ensures Run(lines, BLOCK_LINES[..4]) == lines + BLOCK_LINES[..4]
  {
    hide TrimEnd, HasBegin;
    BlockMarkers();
    var b0, b1, b2, b3 := BLOCK_LINES[0], BLOCK_LINES[1], BLOCK_LINES[2], BLOCK_LINES[3];
    assert BLOCK_LINES[..4] == [b0, b1, b2, b3];
    RunAppend(lines, [b0, b1], [b2, b3]);
    assert [b0, b1] + [b2, b3] == [b0, b1, b2, b3];
    RunOfTwo(lines, b0, b1);
    RunOfTwo(lines + [b0, b1], b2, b3);
    assert lines + [b0, b1] + [b2, b3] == lines + [b0, b1, b2, b3];
  }

  lemma RunOfTwo(out: seq<string>, x: string, y: string)
    requires !IsEnd(x) && !IsEnd(y)
    ensures Run(out, [x, y]) == out + [x, y]
  {
    hide TrimEnd, HasBegin;
    assert [x, y][1..] == [y] && [y][1..] == [];
    assert Run(out, [x, y]) == Run(out + [x], [y]) == Run(out + [x] + [y], []);
    assert out + [x] + [y] == out + [x, y];
  }

  /** Removing what was added gives back the text without its blocks, with its last line ended. */
  lemma RemoveAfterAdd(content: string)
    ensures OnePass(Added(content)) == WithNewline(OnePass(content))
  {
    hide SplitInclusive, Run, Join, NoPair, Proper;
    var base := WithNewline(OnePass(content));
    var lines := SplitInclusive(base);
    OnePassHasNoPair(content);
    SplitWithNewline(OnePass(content));
    SplitIsProper(base);
    BlockIsProper();
    ProperAppend(lines, BLOCK_LINES);
    JoinAppend(lines, BLOCK_LINES);
    SplitOfJoin(lines + BLOCK_LINES);
    RunOverBlock(lines);
  }

  lemma OnePassHasNoPair(content: string)
    ensures !HasPair(OnePass(content))
  {
    RunLeavesNoPair([], SplitInclusive(content));
    SplitIsProper(content);
    RunIsProper([], SplitInclusive(content));
    SplitOfJoin(Run([], SplitInclusive(content)));
  }

  lemma {:induction false} RunLeavesNoPair(out: seq<string>, lines: seq<string>)
    requires NoPair(out)
    ensures NoPair(Run(out, lines))
    decreases |lines|
  {
    if lines != [] {
      RunLeavesNoPair(Push(out, lines[0]), lines[1..]);
    }
  }

  lemma {:induction false} RunIsProper(out: seq<string>, lines: seq<string>)
    requires Proper(out + lines) && (lines != [] && out != [] ==> Terminated(out[|out| - 1]))
    ensures Proper(Run(out, lines))
    decreases |lines|
  {
    if lines == [] {
      assert out + lines == out;
    } else {
      var all, next := out + lines, Push(out, lines[0]);
      assert all[|out|] == lines[0];
      assert forall i :: 0 <= i < |out| ==> all[i] == out[i];
      assert forall i :: 0 <= i < |lines| ==> all[|out| + i] == lines[i];
      RunIsProper(next, lines[1..]);
    }
  }

  /** Adding the block twice is adding it once, whatever the text. */
  lemma AddIsIdempotent(content: string)
    ensures Added(Added(content)) == Added(content)
  {
    hide OnePass;
    RemoveAfterAdd(content);
  }

  /** Removing twice is removing once. */
  lemma RemoveIsIdempotent(content: string)
    ensures OnePass(OnePass(content)) == OnePass(content)
  {
    OnePassHasNoPair(content);
    RunOfRest(OnePass(content));
  }

  /** A text comes back unchanged exactly when it has no block. */
  lemma UnchangedWithoutBlock(content: string)
    ensures OnePass(content) == content <==> !HasPair(content)
  {
    OnePassHasNoPair(content);
    if !HasPair(content) {
      RunOfRest(content);
    }
  }

  /** Install and uninstall restore a text exactly when it had no block and ended in a newline, or was
      empty. */
  lemma RoundTrip(content: string)
    ensures OnePass(Added(content)) == content <==> !HasPair(content) && WithNewline(content) == content
  {
    hide OnePass;
    RemoveAfterAdd(content);
    OnePassHasNoPair(content);
    UnchangedWithoutBlock(content);
    if OnePass(Added(content)) == content {
      WithNewlineHasNoPair(OnePass(content));
    }
  }

  lemma WithNewlineHasNoPair(s: string)
    requires !HasPair(s)
    ensures !HasPair(WithNewline(s))
  {
    SplitWithNewline(s);
  }

  /** After `add_block` there is a block. */
  lemma AddedHasBlock(content: string)
    ensures HasPair(Added(content))
  {
    hide OnePass, HasPair;
    JoinIsLonger(BLOCK_LINES);
    RemoveAfterAdd(content);
    UnchangedWithoutBlock(Added(content));
  }

  // ---- No two lines are joined -----------------------------------------------------------------

  /** `a` is `b` with some elements left out; `idx` says where each one kept comes from. */
  ghost predicate PickedBy(a: seq<string>, b: seq<string>, idx: seq<nat>) {
    && |idx| == |a|
    && (forall i :: 0 <= i < |a| ==> idx[i] < |b| && a[i] == b[idx[i]])
    && (forall i, j :: 0 <= i < j < |a| ==> idx[i] < idx[j])
  }

  /** The lines that removal leaves are lines of the text, whole and in order. */
  lemma RemovalKeepsLines(content: string) returns (idx: seq<nat>)
    ensures PickedBy(SplitInclusive(OnePass(content)), SplitInclusive(content), idx)
  {
    var lines := SplitInclusive(content);
    SplitIsProper(content);
    RunIsProper([], lines);
    SplitOfJoin(Run([], lines));
    idx := RunPicks(lines, 0, [], []);
  }

  lemma {:induction false} RunPicks(all: seq<string>, pos: nat, out: seq<string>, idx: seq<nat>)
    returns (idx': seq<nat>)
    requires pos <= |all| && PickedBy(out, all[..pos], idx)
    ensures PickedBy(Run(out, all[pos..]), all, idx')
    decreases |all| - pos
  {
    if pos == |all| {
      assert all[..pos] == all;
      return idx;
    }
    var line := all[pos];
    assert all[pos..][0] == line && all[pos..][1..] == all[pos + 1..];
    var next := if IsEnd(line) && HasBegin(out) then idx[..LastBegin(out)] else idx + [pos];
    PushPicks(all, pos, out, idx, next);
    hide Push, PickedBy;
    idx' := RunPicks(all, pos + 1, Push(out, line), next);
  }

  lemma PushPicks(all: seq<string>, pos: nat, out: seq<string>, idx: seq<nat>, next: seq<nat>)
    requires pos < |all| && PickedBy(out, all[..pos], idx)
    requires next == if IsEnd(all[pos]) && HasBegin(out) then idx[..LastBegin(out)] else idx + [pos]
    ensures PickedBy(Push(out, all[pos]), all[..pos + 1], next)
  {
    hide Push, PickedBy, LastBegin, HasBegin;
    PushIs(out, all[pos]);
    assert all[..pos + 1] == all[..pos] + [all[pos]];
    if IsEnd(all[pos]) && HasBegin(out) {
      PickedPrefix(out, all[..pos], idx, all[pos], LastBegin(out));
    } else {
      PickedMore(out, all[..pos], idx, all[pos]);
    }
  }

  lemma PushIs(out: seq<string>, line: string)
    ensures IsEnd(line) && HasBegin(out) ==> LastBegin(out) < |out| && Push(out, line) == out[..LastBegin(out)]
    ensures !(IsEnd(line) && HasBegin(out)) ==> Push(out, line) == out + [line]
  {
  }

  lemma PickedPrefix(a: seq<string>, b: seq<string>, idx: seq<nat>, line: string, n: nat)
    requires PickedBy(a, b, idx) && n <= |a|
    ensures PickedBy(a[..n], b + [line], idx[..n])
  {
  }

  lemma PickedMore(a: seq<string>, b: seq<string>, idx: seq<nat>, line: string)
    requires PickedBy(a, b, idx)
    ensures PickedBy(a + [line], b + [line], idx + [|b|])
  {
  }
}

/** The text edits of a `pam.d` service file: lines, markers, and the managed block. */
module PamText {
  import opened Wrappers

  const BEGIN_MARKER := "# >>> tess >>>"
  const END_MARKER := "# <<< tess <<<"
  const MODULE_FILE := "pam_tess.so"
  const SNIPPET_LINE := "session optional pam_tess.so"
  const COMMENT_LINE_1 := "# Managed by `tess install` " + "\U{2014} remove with `tess install "
                          + "--uninstall`. `optional` " + "means a tess"
  const COMMENT_LINE_2 := "# failure is ignored and " + "login proceeds with the " + "keyring left locked; it can "
                          + "never lock you out."

  const BLOCK_LINES: seq<string> :=
    [BEGIN_MARKER + "\n", COMMENT_LINE_1 + "\n", COMMENT_LINE_2 + "\n", SNIPPET_LINE + "\n", END_MARKER + "\n"]

  // ---- Characters and lines --------------------------------------------------------------------

  /** `char::is_whitespace`: the Unicode White_Space property. */
  predicate IsWhitespace(c: char) {
    '\U{0009}' <= c <= '\U{000D}' || c == ' ' || c == '\U{0085}' || c == '\U{00A0}' || c == '\U{1680}'
    || '\U{2000}' <= c <= '\U{200A}' || c == '\U{2028}' || c == '\U{2029}' || c == '\U{202F}'
    || c == '\U{205F}' || c == '\U{3000}'
  }

  function TrimEnd(s: string): string {
    if s == "" || !IsWhitespace(s[|s| - 1]) then s else TrimEnd(s[..|s| - 1])
  }

  function TrimStart(s: string): string {
    if s == "" || !IsWhitespace(s[0]) then s else TrimStart(s[1..])
  }

  function Trim(s: string): string {
    TrimStart(TrimEnd(s))
  }

  predicate Terminated(s: string) {
    s != "" && s[|s| - 1] == '\n'
  }

  /** Length of the first line, its newline included. */
  function LineLength(s: string): (n: nat)
    requires s != ""
    ensures 0 < n <= |s|
    ensures forall i :: 0 <= i < n - 1 ==> s[i] != '\n'
    ensures n < |s| ==> s[n - 1] == '\n'
  {
    if s[0] == '\n' || |s| == 1 then 1 else 1 + LineLength(s[1..])
  }

  /** `split_inclusive('\n')`. */
  function SplitInclusive(s: string): seq<string> {
    if s == "" then [] else [s[..LineLength(s)]] + SplitInclusive(s[LineLength(s)..])
  }

  function Join(lines: seq<string>): string {
    if lines == [] then "" else lines[0] + Join(lines[1..])
  }

  /** What `lines()` makes of one inclusive line. */
  function StripEnding(line: string): string {
    if !Terminated(line) then line
    else
      var body := line[..|line| - 1];
      if body != "" && body[|body| - 1] == '\r' then body[..|body| - 1] else body
  }

  /** `str::lines`. */
  function Lines(s: string): (r: seq<string>)
    ensures |r| == |SplitInclusive(s)|
    ensures forall i :: 0 <= i < |r| ==> r[i] == StripEnding(SplitInclusive(s)[i])
  {
    seq(|SplitInclusive(s)|, i requires 0 <= i < |SplitInclusive(s)| => StripEnding(SplitInclusive(s)[i]))
  }

  ghost predicate ProperLine(line: string) {
    line != "" && forall i :: 0 <= i < |line| - 1 ==> line[i] != '\n'
  }

  /** Lines as they come out of a split: only the last may lack its newline. */
  ghost predicate Proper(lines: seq<string>) {
    && (forall i :: 0 <= i < |lines| ==> ProperLine(lines[i]))
    && (forall i :: 0 <= i < |lines| - 1 ==> Terminated(lines[i]))
  }

  lemma {:induction false} JoinAppend(a: seq<string>, b: seq<string>)
    ensures Join(a + b) == Join(a) + Join(b)
  {
    if a == [] {
      assert a + b == b;
    } else {
      JoinAppend(a[1..], b);
      assert (a + b)[1..] == a[1..] + b && (a + b)[0] == a[0];
    }
  }

  lemma {:induction false} SplitIsProper(s: string)
    ensures Proper(SplitInclusive(s)) && Join(SplitInclusive(s)) == s
    ensures s != "" ==> SplitInclusive(s) != []
  {
    if s != "" {
      var n := LineLength(s);
      SplitIsProper(s[n..]);
      assert s == s[..n] + s[n..];
      assert SplitInclusive(s)[1..] == SplitInclusive(s[n..]);
    }
  }

  lemma {:induction false} LineLengthOfLine(line: string, rest: string)
    requires ProperLine(line) && (rest == "" || Terminated(line))
    ensures LineLength(line + rest) == |line|
  {
    var s := line + rest;
    assert forall i :: 0 <= i < |line| ==> s[i] == line[i];
    assert |line| < |s| ==> s[|line| - 1] == '\n';
  }

  /** Splitting undoes joining, for lines that a split could have produced. */
  lemma {:induction false} SplitOfJoin(lines: seq<string>)
    requires Proper(lines)
    ensures SplitInclusive(Join(lines)) == lines
  {
    if lines != [] {
      var rest := Join(lines[1..]);
      SplitOfJoin(lines[1..]);
      if |lines| == 1 {
        assert rest == "";
      }
      LineLengthOfLine(lines[0], rest);
      assert (lines[0] + rest)[..|lines[0]|] == lines[0];
      assert (lines[0] + rest)[|lines[0]|..] == rest;
    }
  }

  // ---- Markers ---------------------------------------------------------------------------------

  predicate IsBegin(line: string) {
    TrimEnd(line) == BEGIN_MARKER
  }

  predicate IsEnd(line: string) {
    TrimEnd(line) == END_MARKER
  }

  /** The first END with a BEGIN before it, and the most recent such BEGIN. */
  ghost predicate FirstPair(lines: seq<string>, b: int, e: int) {
    && 0 <= b < e < |lines| && IsBegin(lines[b]) && IsEnd(lines[e])
    && (forall k :: b < k < e ==> !IsBegin(lines[k]))
    && NoPair(lines[..e])
  }

  /** No BEGIN line stands before any END line. */
  ghost predicate NoPair(lines: seq<string>) {
    forall i, j :: 0 <= i < j < |lines| && IsBegin(lines[i]) ==> !IsEnd(lines[j])
  }

  ghost predicate HasPair(content: string) {
    !NoPair(SplitInclusive(content))
  }

  lemma NoPairExtend(lines: seq<string>, i: nat)
    requires i < |lines| && NoPair(lines[..i])
    ensures NoPair(lines[..i + 1]) <==> (IsEnd(lines[i]) ==> forall k :: 0 <= k < i ==> !IsBegin(lines[k]))
  {
    var a := lines[..i + 1];
    assert forall k :: 0 <= k < i ==> a[k] == lines[..i][k];
    assert a[i] == lines[i];
    if k :| 0 <= k < i && IsBegin(lines[k]) && IsEnd(lines[i]) {
      assert IsBegin(a[k]) && IsEnd(a[i]);
    }
  }

  /** Trimming does not see the line ending, so both ways of splitting see the same markers. */
  lemma TrimOfStripped(line: string)
    ensures TrimEnd(StripEnding(line)) == TrimEnd(line)
  {
    if Terminated(line) {
      var body := line[..|line| - 1];
      assert TrimEnd(line) == TrimEnd(body);
    }
  }

  /** `marker_byte_span`, in characters: the span of the first pair, whole lines, newline included. */
  method MarkerSpan(content: string) returns (r: Option<(nat, nat)>, ghost b: int, ghost e: int)
    ensures r.None? <==> !HasPair(content)
    ensures r.Some? ==>
              0 <= b < e < |SplitInclusive(content)| && FirstPair(SplitInclusive(content), b, e)
              && r.value == (|Join(SplitInclusive(content)[..b])|, |Join(SplitInclusive(content)[..e + 1])|)
  {
    hide TrimEnd, SplitInclusive;
    var lines := SplitInclusive(content);
    var begin: Option<nat> := None;
    var offset := 0;
    b, e := -1, -1;
    for i := 0 to |lines|
      invariant offset == |Join(lines[..i])|
      invariant NoPair(lines[..i])
      invariant begin.None? <==> b == -1
      invariant begin.None? ==> forall k :: 0 <= k < i ==> !IsBegin(lines[k])
      invariant begin.Some? ==> 0 <= b < i && IsBegin(lines[b]) && begin.value == |Join(lines[..b])|
      invariant begin.Some? ==> forall k :: b < k < i ==> !IsBegin(lines[k])
    {
      JoinAppend(lines[..i], [lines[i]]);
      assert lines[..i + 1] == lines[..i] + [lines[i]];
      var trimmed := TrimEnd(lines[i]);
      if trimmed == BEGIN_MARKER {
        begin, b := Some(offset), i;
      } else if trimmed == END_MARKER && begin.Some? {
        e := i;
        assert IsEnd(lines[e]);
        return Some((begin.value, offset + |lines[i]|)), b, e;
      }
      offset := offset + |lines[i]|;
    }
    assert lines[..|lines|] == lines;
    r := None;
  }

  /** `marker_line_indices`, over the lines that `lines()` yields. */
  method MarkerLineIndices(content: string) returns (r: Option<(nat, nat)>)
    ensures r.Some? <==> HasPair(content)
    ensures r.Some? ==> FirstPair(SplitInclusive(content), r.value.0, r.value.1)
  {
    hide TrimEnd, SplitInclusive, StripEnding;
    var lines := Lines(content);
    ghost var whole := SplitInclusive(content);
    var begin: Option<nat> := None;
    for i := 0 to |lines|
      invariant NoPair(whole[..i])
      invariant begin.None? ==> forall k :: 0 <= k < i ==> !IsBegin(whole[k])
      invariant begin.Some? ==> begin.value < i && IsBegin(whole[begin.value])
      invariant begin.Some? ==> forall k :: begin.value < k < i ==> !IsBegin(whole[k])
    {
      var trimmed := TrimEnd(lines[i]);
      assert trimmed == TrimEnd(whole[i]) by { TrimOfStripped(whole[i]); }
      NoPairExtend(whole, i);
      if trimmed == BEGIN_MARKER {
        begin := Some(i);
      } else if trimmed == END_MARKER && begin.Some? {
        return Some((begin.value, i));
      }
    }
    assert whole[..|lines|] == whole;
    r := None;
  }

  /** `has_block`; `marker_byte_span` finds a block on exactly the same texts. */
  method HasBlock(content: string) returns (r: bool)
    ensures r <==> HasPair(content)
  {
    var indices := MarkerLineIndices(content);
    r := indices.Some?;
  }

  // ---- One pass --------------------------------------------------------------------------------

  predicate HasBegin(lines: seq<string>) {
    exists i :: 0 <= i < |lines| && IsBegin(lines[i])
  }

  function LastBegin(lines: seq<string>): (i: nat)
    requires HasBegin(lines)
    ensures i < |lines| && IsBegin(lines[i]) && forall k :: i < k < |lines| ==> !IsBegin(lines[k])
  {
    if IsBegin(lines[|lines| - 1]) then |lines| - 1 else LastBegin(lines[..|lines| - 1])
  }

  /** Read one line: an END closes the most recent open BEGIN and drops everything since; any other line
      is kept. */
  function Push(out: seq<string>, line: string): seq<string> {
    if IsEnd(line) && HasBegin(out) then out[..LastBegin(out)] else out + [line]
  }

  function Run(out: seq<string>, lines: seq<string>): seq<string>
    decreases |lines|
  {
    if lines == [] then out else Run(Push(out, lines[0]), lines[1..])
  }

  /** The text without its blocks, in a single pass over the lines with the kept lines as a stack. */
  function OnePass(content: string): string {
    Join(Run([], SplitInclusive(content)))
  }

  lemma {:induction false} RunAppend(out: seq<string>, a: seq<string>, b: seq<string>)
    ensures Run(out, a + b) == Run(Run(out, a), b)
    decreases |a|
  {
    if a == [] {
      assert a + b == b;
    } else {
      assert (a + b)[0] == a[0] && (a + b)[1..] == a[1..] + b;
      RunAppend(Push(out, a[0]), a[1..], b);
    }
  }

  lemma {:induction false} RunWithoutPair(out: seq<string>, lines: seq<string>)
    requires NoPair(out + lines)
    ensures Run(out, lines) == out + lines
    decreases |lines|
  {
    if lines == [] {
      assert out + lines == out;
    } else {
      var all := out + lines;
      assert all[|out|] == lines[0];
      assert forall i :: 0 <= i < |out| ==> all[i] == out[i];
      assert Push(out, lines[0]) == out + [lines[0]];
      assert out + [lines[0]] + lines[1..] == all;
      RunWithoutPair(out + [lines[0]], lines[1..]);
    }
  }

  /** Read up to the END of the first pair, one pass holds just the lines before its BEGIN. */
  lemma PairCollapses(lines: seq<string>, b: int, e: int)
    requires FirstPair(lines, b, e)
    ensures Run([], lines[..e + 1]) == lines[..b] == Run([], lines[..b])
  {
    hide *;
    LastBeginIs(lines, b, e);
    var before := lines[..e];
    PrefixWithoutPair(before, b);
    RunFromNothing(before);
    RunFromNothing(before[..b]);
    RunOne(before, lines[e]);
    RunAppend([], before, [lines[e]]);
    Prefixes(lines, b, e);
  }

  lemma Prefixes(lines: seq<string>, b: nat, e: nat)
    requires b < e < |lines|
    ensures lines[..e + 1] == lines[..e] + [lines[e]] && lines[..e][..b] == lines[..b]
  {
  }

  lemma RunFromNothing(lines: seq<string>)
    requires NoPair(lines)
    ensures Run([], lines) == lines
  {
    assert [] + lines == lines;
    RunWithoutPair([], lines);
  }

  lemma RunOne(out: seq<string>, line: string)
    ensures Run(out, [line]) == Push(out, line)
  {
  }

  /** The END of the first pair closes its BEGIN. */
  lemma LastBeginIs(lines: seq<string>, b: int, e: int)
    requires FirstPair(lines, b, e)
    ensures 0 <= b < e < |lines| && NoPair(lines[..e]) && Push(lines[..e], lines[e]) == lines[..e][..b]
  {
    hide TrimEnd, NoPair;
    assert lines[..e][b] == lines[b];
    assert LastBegin(lines[..e]) == b;
  }

  /** Splicing out the first pair does not change what one pass computes. */
  lemma SpliceKeepsRun(lines: seq<string>, b: int, e: int)
    requires FirstPair(lines, b, e)
    ensures Run([], lines[..b] + lines[e + 1..]) == Run([], lines)
  {
    hide Run, NoPair;
    PairCollapses(lines, b, e);
    RunAppend([], lines[..b], lines[e + 1..]);
    RunAppend([], lines[..e + 1], lines[e + 1..]);
    assert lines == lines[..e + 1] + lines[e + 1..];
  }

  lemma PrefixWithoutPair(lines: seq<string>, n: nat)
    requires n <= |lines| && NoPair(lines)
    ensures NoPair(lines[..n])
  {
  }

  lemma SpliceIsProper(lines: seq<string>, b: nat, e: nat)
    requires b <= e <= |lines| && Proper(lines)
    ensures Proper(lines[..b] + lines[e..])
    ensures Join(lines[..b] + lines[e..]) == Join(lines[..b]) + Join(lines[e..])
  {
    JoinAppend(lines[..b], lines[e..]);
  }

  /** `remove_block`: splice out the first pair, again and again, until there is none. It computes what one
      pass over the lines computes. */
  method RemoveBlock(content: string) returns (out: string)
    ensures out == OnePass(content)
    ensures !HasPair(out)
  {
    hide SplitInclusive, Run, Push, Proper, FirstPair, TrimEnd;
    out := content;
    ghost var goal := Run([], SplitInclusive(content));
    var span, b, e := MarkerSpan(out);
    while span.Some?
      invariant Run([], SplitInclusive(out)) == goal
      invariant span.None? <==> !HasPair(out)
      invariant span.Some? ==> 0 <= b < e < |SplitInclusive(out)| && FirstPair(SplitInclusive(out), b, e)
      invariant span.Some? ==>
                  span.value == (|Join(SplitInclusive(out)[..b])|, |Join(SplitInclusive(out)[..e + 1])|)
      decreases |out|
    {
      SpliceStep(out, b, e);
      out := out[..span.value.0] + out[span.value.1..];
      span, b, e := MarkerSpan(out);
    }
    RunOfRest(out);
  }

  /** One splice, on characters and on lines. */
  lemma SpliceStep(out: string, b: int, e: int)
    requires FirstPair(SplitInclusive(out), b, e)
    ensures var lines := SplitInclusive(out);
            var begin, end := |Join(lines[..b])|, |Join(lines[..e + 1])|;
            begin < end <= |out|
            && SplitInclusive(out[..begin] + out[end..]) == lines[..b] + lines[e + 1..]
            && Run([], SplitInclusive(out[..begin] + out[end..])) == Run([], lines)
  {
    hide SplitInclusive, Run, Join;
    var lines := SplitInclusive(out);
    SplitIsProper(out);
    SpliceIsProper(lines, b, e + 1);
    SplitOfJoin(lines[..b] + lines[e + 1..]);
    SpliceKeepsRun(lines, b, e);
    SpanBounds(lines, b, e + 1);
  }

  lemma SpanBounds(lines: seq<string>, b: nat, e: nat)
    requires b < e <= |lines| && Proper(lines)
    ensures |Join(lines[..b])| < |Join(lines[..e])| <= |Join(lines)|
    ensures Join(lines)[..|Join(lines[..b])|] == Join(lines[..b])
    ensures Join(lines)[|Join(lines[..e])|..] == Join(lines[e..])
  {
    JoinAppend(lines[..e], lines[e..]);
    JoinAppend(lines[..b], lines[b..]);
    JoinAppend(lines[..b], lines[b..e]);
    assert lines == lines[..e] + lines[e..] == lines[..b] + lines[b..];
    assert lines[..e] == lines[..b] + lines[b..e];
    JoinIsLonger(lines[b..e]);
  }

  lemma JoinIsLonger(lines: seq<string>)
    requires lines != [] && lines[0] != ""
    ensures |Join(lines)| > 0
  {
  }

  lemma RunOfRest(out: string)
    requires !HasPair(out)
    ensures OnePass(out) == out && Run([], SplitInclusive(out)) == SplitInclusive(out)
  {
    var lines := SplitInclusive(out);
    assert [] + lines == lines;
    RunWithoutPair([], lines);
    SplitIsProper(out);
  }
}

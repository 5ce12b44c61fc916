/** What `validate_stack` guarantees, against the stack machine of pam.conf(5): an `ignore` contributes
    nothing; `bad` makes the first failure the result and `die` also returns at once; `ok` replaces a
    result that is still a success, or absent, and `done` also returns at once unless the stack has
    already failed; a number jumps over that many modules; `reset` forgets everything. */
module PamMachine {
  import opened Wrappers
  import opened PamText
  import opened PamBlock
  import opened PamStack

  datatype Action = Ignore | Bad | Die | Accept | Done | Reset | Jump(n: nat)

  /** What the stack has so far. With nothing decided, PAM refuses. */
  datatype State = Undecided | Passing(code: string) | Failing(code: string)

  const SUCCESS := "success"
  const NEW_AUTHTOK_REQD := "new_authtok_reqd"

  /** The codes the tess module returns. */
  const TESS_CODES: set<string> := {SUCCESS, "authinfo_unavail", "ignore"}

  function ParseNumber(s: string): Option<nat> {
    if s == "" then None
    else if !('0' <= s[|s| - 1] <= '9') then None
    else
      var d := (s[|s| - 1] - '0') as nat;
      if |s| == 1 then Some(d)
      else match ParseNumber(s[..|s| - 1]) case None => None case Some(n) => Some(10 * n + d)
  }

  /** An action the manual does not know counts as `bad`. */
  function ParseAction(value: string): Action {
    if value == "ignore" then Ignore
    else if value == "die" then Die
    else if value == "ok" then Accept
    else if value == "done" then Done
    else if value == "reset" then Reset
    else match ParseNumber(value) case Some(n) => Jump(n) case None => Bad
  }

  /** The action the last word for `key` gives. */
  function Lookup(words: seq<string>, key: string): Option<Action> {
    if words == [] then None
    else
      var pair := SplitPair(words[|words| - 1]);
      if pair.Some? && pair.value.0 == key then Some(ParseAction(pair.value.1))
      else Lookup(words[..|words| - 1], key)
  }

  /** What a control field does with a return code; the keywords stand for the groups the manual gives. */
  function ActionOf(control: string, code: string): Action {
    var c := Trim(control);
    var passes := code == SUCCESS || code == NEW_AUTHTOK_REQD;
    if c == "required" then if passes then Accept else if code == "ignore" then Ignore else Bad
    else if c == "requisite" then if passes then Accept else if code == "ignore" then Ignore else Die
    else if c == "sufficient" then if passes then Done else Ignore
    else if c == "optional" then if passes then Accept else Ignore
    else match Group(c)
      case None => Bad
      case Some(group) =>
        match Lookup(Words(group), code)
        case Some(a) => a
        case None => match Lookup(Words(group), "default") case Some(a) => a case None => Bad
  }

  /** One module line of a stack, with the code its module returns in this run. */
  datatype Entry = Entry(control: string, code: string)

  function Take(state: State, code: string): State {
    match state
    case Undecided => Passing(code)
    case Passing(c) => if c == SUCCESS then Passing(code) else state
    case Failing(_) => state
  }

  function Fail(state: State, code: string): State {
    if state.Failing? then state else Failing(code)
  }

  /** Run a stack from `state`. A jump past the end fails. */
  function Evaluate(state: State, stack: seq<Entry>): State
    decreases |stack|
  {
    if stack == [] then state
    else
      var code, rest := stack[0].code, stack[1..];
      match ActionOf(stack[0].control, code)
      case Ignore => Evaluate(state, rest)
      case Accept => Evaluate(Take(state, code), rest)
      case Done => if state.Failing? then Evaluate(state, rest) else Take(state, code)
      case Bad => Evaluate(Fail(state, code), rest)
      case Die => Fail(state, code)
      case Reset => Evaluate(Undecided, rest)
      case Jump(n) => if n <= |rest| then Evaluate(state, rest[n..]) else Fail(state, "perm_denied")
  }

  // ---- A tess line in an accepted stack --------------------------------------------------------

  lemma {:induction false} LookupIsIgnore(words: seq<string>, key: string)
    requires forall i :: 0 <= i < |words| ==> WordFailsOpen(words[i])
    ensures Lookup(words, key).Some? ==>
              if key == SUCCESS then Lookup(words, key).value in {Accept, Done, Ignore}
              else Lookup(words, key) == Some(Ignore)
  {
    if words != [] {
      var last := words[|words| - 1];
      assert WordFailsOpen(last);
      if !(SplitPair(last).Some? && SplitPair(last).value.0 == key) {
        LookupIsIgnore(words[..|words| - 1], key);
      }
    }
  }

  lemma {:induction false} LookupDefault(words: seq<string>, i: nat)
    requires i < |words| && IsDefault(words[i])
    ensures Lookup(words, "default").Some?
  {
    if !IsDefault(words[|words| - 1]) {
      LookupDefault(words[..|words| - 1], i);
    }
  }

  /** The check is sound for every code: nothing but a success can count, and a success can only count
      for the login. Only the keyword `optional` lets one more code count, which tess never returns. */
  lemma FailOpenActions(control: string, code: string)
    requires FailsOpen(control)
    ensures code != SUCCESS && code != NEW_AUTHTOK_REQD ==> ActionOf(control, code) == Ignore
    ensures code == NEW_AUTHTOK_REQD ==>
              ActionOf(control, code) == if Trim(control) == "optional" then Accept else Ignore
    ensures code == SUCCESS ==> ActionOf(control, code) in {Accept, Done, Ignore}
  {
    hide Trim, Words, SplitPair, WordFailsOpen, IsDefault, Lookup;
    var c := Trim(control);
    if c != "optional" {
      var words := Words(Group(c).value);
      LookupIsIgnore(words, code);
      LookupIsIgnore(words, "default");
      var i :| 0 <= i < |words| && IsDefault(words[i]);
      LookupDefault(words, i);
    }
  }

  /** `i` is a tess line of `content`, and `p` what it says. */
  ghost predicate TessLine(content: string, i: nat, p: PamLine) {
    i < |SplitInclusive(content)| && IsModuleLine(SplitInclusive(content)[i])
    && ParseLine(Trim(SplitInclusive(content)[i])) == Ok(p) && p.ModuleIs(MODULE_FILE)
  }

  /** From `a` to `b` nothing changes but that a stack nobody had decided is passed. */
  ghost predicate AtMostDecides(a: State, b: State) {
    a == b || (a == Undecided && b == Passing(SUCCESS))
  }

  /** What follows keeps it so. */
  lemma {:induction false} DecidesThrough(a: State, b: State, stack: seq<Entry>)
    requires AtMostDecides(a, b)
    ensures AtMostDecides(Evaluate(a, stack), Evaluate(b, stack))
    decreases |stack|
  {
    hide ActionOf;
    if stack != [] {
      var code, rest := stack[0].code, stack[1..];
      match ActionOf(stack[0].control, code)
      case Ignore => DecidesThrough(a, b, rest);
      case Accept => DecidesThrough(Take(a, code), Take(b, code), rest);
      case Done => if a.Failing? { DecidesThrough(a, b, rest); }
      case Bad => DecidesThrough(Fail(a, code), Fail(b, code), rest);
      case Die =>
      case Reset =>
      case Jump(n) => if n <= |rest| { DecidesThrough(a, b, rest[n..]); }
    }
  }

  /** A line that fails open, at any place of any stack, jumps and resets and all, beside one that is ignored: returning
      a non-success code it does the same, and returning success it decides at most what nobody had decided, unless its
      control ends the stack on success. */
  lemma {:induction false} TessLineAnywhere(before: seq<Entry>, control: string, code: string, after: seq<Entry>,
                                            state: State)
    requires FailsOpen(control) && code in TESS_CODES
    ensures var without := Evaluate(state, before + [Entry("optional", "ignore")] + after);
            var taken := Evaluate(state, before + [Entry(control, code)] + after);
            && (code != SUCCESS ==> taken == without)
            && (ActionOf(control, SUCCESS) != Done ==> AtMostDecides(without, taken))
    decreases |before|
  {
    hide ActionOf, FailsOpen, Take, Fail;
    var x, y := Entry(control, code), Entry("optional", "ignore");
    FailOpenActions(control, code);
    OptionalIgnores();
    var s, t := before + [x] + after, before + [y] + after;
    if before == [] {
      assert s == [x] + after && t == [y] + after;
      assert s[1..] == after && t[1..] == after;
      TakesSuccess(state);
      DecidesThrough(state, Take(state, SUCCESS), after);
    } else {
      assert s[1..] == before[1..] + [x] + after && t[1..] == before[1..] + [y] + after;
      forall st { TessLineAnywhere(before[1..], control, code, after, st); }
      match ActionOf(before[0].control, before[0].code)
      case Jump(n) =>
        if n < |before| {
          assert s[1..][n..] == before[1 + n..] + [x] + after;
          assert t[1..][n..] == before[1 + n..] + [y] + after;
          if n < |before| - 1 {
            TessLineAnywhere(before[1 + n..], control, code, after, state);
          } else {
            assert before[1 + n..] == [];
            TessLineAnywhere([], control, code, after, state);
          }
        } else if n <= |s| - 1 {
          assert s[1..][n..] == after[n - |before|..] == t[1..][n..];
        }
      case _ =>
    }
  }

  lemma TakesSuccess(state: State)
    ensures AtMostDecides(state, Take(state, SUCCESS))
  {
  }

  /** In an accepted stack this holds of every tess line. */
  lemma TessLineIsHarmless(content: string, i: nat, p: PamLine, code: string, before: seq<Entry>, after: seq<Entry>, state: State)
    requires ValidStack(content) && TessLine(content, i, p) && code in TESS_CODES
    ensures var without := Evaluate(state, before + [Entry("optional", "ignore")] + after);
            var taken := Evaluate(state, before + [Entry(p.control, code)] + after);
            && (code != SUCCESS ==> taken == without)
            && (ActionOf(p.control, SUCCESS) != Done ==> AtMostDecides(without, taken))
    ensures state.Failing? ==> Evaluate(state, [Entry(p.control, code)] + after) == Evaluate(state, after)
    ensures ActionOf(p.control, code) in {Ignore, Accept, Done}
  {
    hide ActionOf, FailsOpen, ParseLine, Trim, SplitInclusive, Fail, Evaluate;
    assert LineFailsOpen(SplitInclusive(content)[i]);
    FailOpenActions(p.control, code);
    TessLineAnywhere(before, p.control, code, after, state);
    if state.Failing? { FailedStaysFailed(p.control, code, after, state); }
  }

  lemma FailedStaysFailed(control: string, code: string, after: seq<Entry>, state: State)
    requires FailsOpen(control) && code in TESS_CODES && state.Failing?
    ensures Evaluate(state, [Entry(control, code)] + after) == Evaluate(state, after)
  {
    hide ActionOf, FailsOpen;
    FailOpenActions(control, code);
    var stack := [Entry(control, code)] + after;
    assert stack[0] == Entry(control, code) && stack[1..] == after;
  }

  /** The condition is exact: of a control that the check accepts, the success is harmless in every stack if and only if
      it does not end the stack. */
  lemma SuccessIsHarmless(control: string)
    requires FailsOpen(control)
    ensures ActionOf(control, SUCCESS) != Done <==>
              forall before, after, state ::
                AtMostDecides(Evaluate(state, before + [Entry("optional", "ignore")] + after),
                              Evaluate(state, before + [Entry(control, SUCCESS)] + after))
  {
    hide ActionOf, FailsOpen, Evaluate, AtMostDecides;
    if ActionOf(control, SUCCESS) != Done {
      forall before, after, state
        ensures AtMostDecides(Evaluate(state, before + [Entry("optional", "ignore")] + after),
                              Evaluate(state, before + [Entry(control, SUCCESS)] + after))
      {
        TessLineAnywhere(before, control, SUCCESS, after, state);
      }
    } else {
      DoneGrants(control);
    }
  }

  /** A line that ends the stack on success grants what the line after it would have refused. */
  lemma DoneGrants(control: string)
    requires ActionOf(control, SUCCESS) == Done
    ensures var refused, granted := [] + [Entry("optional", "ignore")] + [REFUSAL], [] + [Entry(control, SUCCESS)] + [REFUSAL];
            && Evaluate(Undecided, refused) == Failing("auth_err") && Evaluate(Undecided, granted) == Passing(SUCCESS)
            && !AtMostDecides(Evaluate(Undecided, refused), Evaluate(Undecided, granted))
  {
    var refused, granted := [] + [Entry("optional", "ignore")] + [REFUSAL], [] + [Entry(control, SUCCESS)] + [REFUSAL];
    OptionalIgnores();
    RequiredRefuses();
    hide ActionOf;
    assert refused[0] == Entry("optional", "ignore") && refused[1..] == [REFUSAL] && [REFUSAL][1..] == [];
    assert Evaluate(Undecided, [REFUSAL]) == Evaluate(Failing("auth_err"), []) == Failing("auth_err");
    assert granted[0] == Entry(control, SUCCESS);
  }

  const REFUSAL: Entry := Entry("required", "auth_err")

  lemma RequiredRefuses()
    ensures ActionOf(REFUSAL.control, REFUSAL.code) == Bad
  {
    assert "required"[7] == 'd';
    assert TrimEnd("required") == "required";
  }

  const DONE_WORDS := "success=done" + (" " + "default=ignore")
  const DONE_CONTROL := "[" + DONE_WORDS + "]"

  /** The check accepts such a control. */
  lemma DoneIsAccepted()
    ensures FailsOpen(DONE_CONTROL) && ActionOf(DONE_CONTROL, SUCCESS) == Done
  {
    hide Words, SplitPair, Trim, Lookup;
    DonePair();
    DefaultPair();
    TwoWords("success=done", "default=ignore");
    DoneGroup();
    var words := Words(DONE_WORDS);
    assert WordFailsOpen(words[0]) && WordFailsOpen(words[1]) && IsDefault(words[1]);
    DoneLookup(words);
    ByGroup(DONE_CONTROL, SUCCESS, DONE_WORDS);
  }

  lemma DoneGroup()
    ensures Trim(DONE_CONTROL) == DONE_CONTROL && Group(DONE_CONTROL) == Some(DONE_WORDS)
  {
    hide TrimEnd, TrimStart;
    assert DONE_CONTROL[0] == '[' && DONE_CONTROL[|DONE_CONTROL| - 1] == ']';
    TrimKeeps(DONE_CONTROL);
  }

  lemma ByGroup(control: string, code: string, group: string)
    requires Trim(control) == control && Group(control) == Some(group) && Lookup(Words(group), code).Some?
    ensures ActionOf(control, code) == Lookup(Words(group), code).value
  {
    hide Trim, Words, Lookup;
  }

  lemma DonePair()
    ensures SplitPair("success=done") == Some(("success", "done"))
  {
    hide TrimEnd, TrimStart, Find;
    PairAt("success=done", 7);
    assert "success=done"[..7] == "success" && "success=done"[8..] == "done";
    Plain("success");
    Plain("done");
  }

  lemma DefaultPair()
    ensures SplitPair("default=ignore") == Some(("default", "ignore"))
  {
    hide TrimEnd, TrimStart, Find;
    PairAt("default=ignore", 7);
    assert "default=ignore"[..7] == "default" && "default=ignore"[8..] == "ignore";
    Plain("default");
    Plain("ignore");
  }

  lemma Plain(s: string)
    requires s != "" && !IsWhitespace(s[0]) && !IsWhitespace(s[|s| - 1])
    ensures Trim(s) == s
  {
    TrimKeeps(s);
  }

  lemma DoneLookup(words: seq<string>)
    requires |words| == 2 && SplitPair(words[0]) == Some(("success", "done")) && SplitPair(words[1]) == Some(("default", "ignore"))
    ensures Lookup(words, SUCCESS) == Some(Done)
  {
    hide SplitPair;
    assert words[..1][0] == words[0] && |words[..1]| == 1;
    assert Lookup(words, SUCCESS) == Lookup(words[..1], SUCCESS);
  }

  lemma TwoWords(a: string, b: string)
    requires a != "" && b != ""
    requires (forall i :: 0 <= i < |a| ==> !IsWhitespace(a[i])) && forall i :: 0 <= i < |b| ==> !IsWhitespace(b[i])
    ensures Words(a + (" " + b)) == [a, b]
  {
    hide TrimStart, TokenLength, IsWhitespace;
    assert IsWhitespace(' ') by { BlankIsWhitespace(); }
    var s := a + (" " + b);
    NextTokenIs(s, a, " " + b);
    SkipBlank(b);
    assert b == b + "";
    NextTokenIs(b, b, "");
    FirstWord(s, a, " " + b);
    FirstWord(" " + b, b, "");
    NoWords();
  }

  lemma NoWords()
    ensures Words("") == []
  {
  }

  lemma FirstWord(s: string, word: string, rest: string)
    requires NextToken(s) == Some((word, rest))
    ensures Words(s) == [word] + Words(rest)
  {
  }

  lemma PairAt(word: string, i: nat)
    requires i < |word| && word[i] == '=' && forall k :: 0 <= k < i ==> word[k] != '='
    ensures SplitPair(word) == Some((Trim(word[..i]), Trim(word[i + 1..])))
  {
    FindIs(word, '=', i);
  }

  lemma {:induction false} FindIs(s: string, c: char, i: nat)
    requires i < |s| && s[i] == c && forall k :: 0 <= k < i ==> s[k] != c
    ensures Find(s, c) == Some(i)
  {
    if i > 0 { FindIs(s[1..], c, i - 1); }
  }

  lemma OptionalIgnores()
    ensures ActionOf("optional", "ignore") == Ignore && FailsOpen("optional")
    ensures ActionOf("optional", SUCCESS) == Accept
  {
    assert "optional"[7] == 'l';
    assert TrimEnd("optional") == "optional";
  }

  // ---- The block that tess appends -------------------------------------------------------------

  /** No jump goes past the end. */
  ghost predicate JumpsInside(stack: seq<Entry>) {
    forall i :: 0 <= i < |stack| ==>
      var a := ActionOf(stack[i].control, stack[i].code);
      a.Jump? ==> a.n < |stack| - i
  }

  /** A tess line appended to a stack changes its outcome in one case only: nothing else had decided it,
      and the module succeeds. */
  lemma {:induction false} AppendOptional(stack: seq<Entry>, code: string, state: State)
    requires code in TESS_CODES && JumpsInside(stack)
    ensures Evaluate(state, stack + [Entry("optional", code)])
         == if code == SUCCESS && Evaluate(state, stack) == Undecided then Passing(SUCCESS) else Evaluate(state, stack)
    decreases |stack|
  {
    hide ActionOf;
    var longer := stack + [Entry("optional", code)];
    if stack == [] {
      OptionalActions(code);
      assert longer[0] == Entry("optional", code) && longer[1..] == [];
    } else {
      var rest := stack[1..];
      assert longer[0] == stack[0] && longer[1..] == rest + [Entry("optional", code)];
      assert forall i :: 0 <= i < |rest| ==> rest[i] == stack[i + 1];
      forall st { AppendOptional(rest, code, st); }
      match ActionOf(stack[0].control, stack[0].code)
      case Jump(n) =>
        assert longer[1..][n..] == rest[n..] + [Entry("optional", code)];
        assert forall i :: 0 <= i < |rest[n..]| ==> rest[n..][i] == stack[1 + n + i];
        AppendOptional(rest[n..], code, state);
      case _ =>
    }
  }

  lemma OptionalActions(code: string)
    requires code in TESS_CODES
    ensures ActionOf("optional", code) == if code == SUCCESS then Accept else Ignore
  {
    assert TrimEnd("optional") == "optional" by { assert "optional"[7] == 'l'; }
  }

  /** Nothing has decided a stack, without resets and jumps, exactly when every line in it was ignored. */
  lemma {:induction false} UndecidedWhenAllIgnored(stack: seq<Entry>)
    requires forall e :: e in stack ==> !ActionOf(e.control, e.code).Reset? && !ActionOf(e.control, e.code).Jump?
    ensures Evaluate(Undecided, stack) == Undecided <==> forall e :: e in stack ==> ActionOf(e.control, e.code) == Ignore
  {
    hide ActionOf;
    if stack != [] {
      UndecidedWhenAllIgnored(stack[1..]);
      assert forall e :: e in stack <==> e == stack[0] || e in stack[1..];
      StaysDecided(Passing(stack[0].code), stack[1..]);
      StaysDecided(Failing(stack[0].code), stack[1..]);
    }
  }

  lemma {:induction false} StaysDecided(state: State, stack: seq<Entry>)
    requires !state.Undecided?
    requires forall e :: e in stack ==> !ActionOf(e.control, e.code).Reset? && !ActionOf(e.control, e.code).Jump?
    ensures !Evaluate(state, stack).Undecided?
    decreases |stack|
  {
    hide ActionOf;
    if stack != [] {
      assert stack[0] in stack;
      StaysDecided(state, stack[1..]);
      StaysDecided(Take(state, stack[0].code), stack[1..]);
      StaysDecided(Fail(state, stack[0].code), stack[1..]);
    }
  }

  // ---- From text to stack ----------------------------------------------------------------------

  /** What one line puts on the stack of type `kind`; `expand` says what a directive stands for. */
  function EntriesOf(line: string, kind: string, code: string, expand: string -> seq<Entry>): seq<Entry> {
    var t := Trim(line);
    if t == "" || t[0] == '#' then []
    else if t[0] == '@' then expand(t)
    else match ParseLine(t)
      case Ok(p) => if p.kind == kind then [Entry(p.control, code)] else []
      case Err(_) => []
  }

  /** The stack of type `kind` in a file; line number `i` returns `code(i)`. */
  function Stack(lines: seq<string>, kind: string, code: nat -> string, expand: string -> seq<Entry>): seq<Entry> {
    if lines == [] then []
    else Stack(lines[..|lines| - 1], kind, code, expand)
         + EntriesOf(lines[|lines| - 1], kind, code(|lines| - 1), expand)
  }

  lemma NextTokenIs(s: string, token: string, rest: string)
    requires s == token + rest && token != "" && forall i :: 0 <= i < |token| ==> !IsWhitespace(token[i])
    requires rest == "" || IsWhitespace(rest[0])
    ensures NextToken(s) == Some((token, rest)) && TrimStart(s) == s
  {
    TokenLengthIs(s, |token|);
    assert s[0] == token[0];
  }

  lemma {:induction false} TokenLengthIs(s: string, n: nat)
    requires n <= |s| && forall i :: 0 <= i < n ==> !IsWhitespace(s[i])
    requires n < |s| ==> IsWhitespace(s[n])
    ensures TokenLength(s) == n
  {
    if n > 0 { TokenLengthIs(s[1..], n - 1); }
  }

  lemma SkipBlank(s: string)
    requires s != "" && !IsWhitespace(s[0])
    ensures TrimStart(" " + s) == s
  {
    assert (" " + s)[1..] == s;
  }

  lemma TrimKeeps(s: string)
    requires s != "" && !IsWhitespace(s[0]) && !IsWhitespace(s[|s| - 1])
    ensures Trim(s) == s && Trim(s + "\n") == s
  {
    TrimTerminated(s);
  }

  /** A line of three plain words parses into them. */
  lemma ThreeWordsParse(kind: string, control: string, modulePath: string)
    requires kind in ["auth", "account", "password", "session"]
    requires forall i :: 0 <= i < |kind| ==> !IsWhitespace(kind[i])
    requires control != "" && control[0] != '[' && forall i :: 0 <= i < |control| ==> !IsWhitespace(control[i])
    requires modulePath != "" && forall i :: 0 <= i < |modulePath| ==> !IsWhitespace(modulePath[i])
    ensures ParseLine(kind + (" " + (control + (" " + modulePath)))) == Ok(PamLine(kind, control, modulePath))
  {
    hide TrimStart, TokenLength, TrimEnd, Find, IsWhitespace;
    var tail := control + (" " + modulePath);
    var line := kind + (" " + tail);
    assert IsWhitespace(' ') by { BlankIsWhitespace(); }
    assert line[0] == kind[0] && line[|line| - 1] == modulePath[|modulePath| - 1];
    TrimKeeps(line);
    NextTokenIs(line, kind, " " + tail);
    assert WithoutDash(kind) == kind by { assert kind[0] != '-'; }
    assert tail[0] == control[0];
    SkipBlank(tail);
    NextTokenIs(tail, control, " " + modulePath);
    SkipBlank(modulePath);
    assert modulePath == modulePath + "";
    NextTokenIs(modulePath, modulePath, "");
  }

  lemma BlankIsWhitespace()
    ensures IsWhitespace(' ')
  {
  }

  /** The line tess adds parses as it should. */
  lemma SnippetParses()
    ensures ParseLine(SNIPPET_LINE) == Ok(PamLine("session", "optional", "pam_tess.so"))
  {
    hide ParseLine;
    assert SNIPPET_LINE == "session" + (" " + ("optional" + (" " + "pam_tess.so")));
    ThreeWordsParse("session", "optional", "pam_tess.so");
  }

  /** Of the block's five lines only one is a module line, and it is on the session stack. */
  lemma BlockEntries(kind: string, code: string, expand: string -> seq<Entry>, i: nat)
    requires i < 5
    ensures EntriesOf(BLOCK_LINES[i], kind, code, expand)
         == if i == 3 && kind == "session" then [Entry("optional", code)] else []
    ensures LineFailsOpen(BLOCK_LINES[i])
  {
    hide ParseLine, TrimStart, TrimEnd, FailsOpen;
    assert BEGIN_MARKER[0] == '#' && END_MARKER[0] == '#' && COMMENT_LINE_1[0] == '#' && COMMENT_LINE_2[0] == '#';
    assert SNIPPET_LINE[0] == 's' && SNIPPET_LINE[|SNIPPET_LINE| - 1] == 'o';
    match i {
      case 0 => TrimKeeps(BEGIN_MARKER);
      case 1 => TrimKeeps(COMMENT_LINE_1);
      case 2 => TrimKeeps(COMMENT_LINE_2);
      case 3 => TrimKeeps(SNIPPET_LINE); SnippetParses(); OptionalIgnores();
      case 4 => TrimKeeps(END_MARKER);
    }
  }

  /** The lines of a text that `add_block` produced. */
  lemma LinesOfAdded(content: string)
    ensures SplitInclusive(Added(content)) == SplitInclusive(WithNewline(OnePass(content))) + BLOCK_LINES
  {
    hide SplitInclusive, Run, Join, NoPair, Proper;
    OnePassHasNoPair(content);
    SplitWithNewline(OnePass(content));
    SplitIsProper(WithNewline(OnePass(content)));
    BlockIsProper();
    ProperAppend(SplitInclusive(WithNewline(OnePass(content))), BLOCK_LINES);
    JoinAppend(SplitInclusive(WithNewline(OnePass(content))), BLOCK_LINES);
    SplitOfJoin(SplitInclusive(WithNewline(OnePass(content))) + BLOCK_LINES);
  }

  lemma StackOfOneMore(lines: seq<string>, line: string, kind: string, code: nat -> string,
                       expand: string -> seq<Entry>)
    ensures Stack(lines + [line], kind, code, expand)
         == Stack(lines, kind, code, expand) + EntriesOf(line, kind, code(|lines|), expand)
  {
    assert (lines + [line])[..|lines|] == lines;
  }

  lemma StackOfAdded(lines: seq<string>, kind: string, code: nat -> string, expand: string -> seq<Entry>)
    ensures Stack(lines + BLOCK_LINES, kind, code, expand)
         == Stack(lines, kind, code, expand)
            + if kind == "session" then [Entry("optional", code(|lines| + 3))] else []
  {
    hide Stack;
    StackOfSome(lines, kind, code, expand, 5);
    assert BLOCK_LINES[..5] == BLOCK_LINES;
  }

  lemma {:induction false} StackOfSome(lines: seq<string>, kind: string, code: nat -> string, expand: string -> seq<Entry>, i: nat)
    requires i <= 5
    ensures Stack(lines + BLOCK_LINES[..i], kind, code, expand)
         == Stack(lines, kind, code, expand)
            + if i > 3 && kind == "session" then [Entry("optional", code(|lines| + 3))] else []
  {
    hide EntriesOf, Stack;
    if i > 0 {
      var some := lines + BLOCK_LINES[..i - 1];
      StackOfSome(lines, kind, code, expand, i - 1);
      BlockEntries(kind, code(|some|), expand, i - 1);
      StackOfOneMore(some, BLOCK_LINES[i - 1], kind, code, expand);
      assert lines + BLOCK_LINES[..i] == some + [BLOCK_LINES[i - 1]];
    } else {
      assert lines + BLOCK_LINES[..0] == lines;
    }
  }

  /** The whole effect of an installation on a login, for a text without a block: every stack but `session` is as it was,
      and that one differs only if no other line of it had a say and the tess module succeeds. In particular a session
      that the other lines refuse is refused, and one that they grant is granted with the same code. */
  lemma InstallIsHarmless(content: string, kind: string, code: nat -> string, expand: string -> seq<Entry>)
    requires !HasPair(content) && code(|SplitInclusive(content)| + 3) in TESS_CODES
    requires JumpsInside(Stack(SplitInclusive(content), kind, code, expand))
    ensures var before := Evaluate(Undecided, Stack(SplitInclusive(content), kind, code, expand));
            var after := Evaluate(Undecided, Stack(SplitInclusive(Added(content)), kind, code, expand));
            after == before || (kind == "session" && before == Undecided && after == Passing(SUCCESS))
  {
    UnchangedWithoutBlock(content);
    EndedStack(content, kind, code, expand);
    hide SplitInclusive, Stack, Evaluate, JumpsInside, OnePass, HasPair, WithNewline;
    var lines := SplitInclusive(WithNewline(content));
    LinesOfAdded(content);
    StackOfAdded(lines, kind, code, expand);
    var stack := Stack(lines, kind, code, expand);
    AppendOptional(stack, code(|lines| + 3), Undecided);
    assert stack + [] == stack;
  }

  /** Ending the last line changes no stack. */
  lemma EndedStack(s: string, kind: string, code: nat -> string, expand: string -> seq<Entry>)
    ensures |SplitInclusive(WithNewline(s))| == |SplitInclusive(s)|
    ensures Stack(SplitInclusive(WithNewline(s)), kind, code, expand) == Stack(SplitInclusive(s), kind, code, expand)
  {
    if s != "" && !Terminated(s) {
      hide SplitInclusive, EntriesOf;
      SplitOfEnded(s);
      var lines := SplitInclusive(s);
      var n := |lines| - 1;
      var ended := SplitInclusive(s + "\n");
      assert ended[..n] == lines[..n] && ended[n] == lines[n] + "\n";
      EndedEntries(lines[n], kind, code(n), expand);
    }
  }

  lemma EndedEntries(line: string, kind: string, code: string, expand: string -> seq<Entry>)
    ensures EntriesOf(line + "\n", kind, code, expand) == EntriesOf(line, kind, code, expand)
  {
    TrimEndOfEnded(line);
  }

  /** A text with a block is installed into as the text without it would be. */
  lemma Reinstall(content: string)
    ensures Added(content) == Added(OnePass(content)) && !HasPair(OnePass(content))
  {
    hide OnePass, HasPair;
    RemoveIsIdempotent(content);
    OnePassHasNoPair(content);
  }

  /** So whatever line stands between the markers is lost to its stack. */
  lemma EnclosedLineIsDropped(lines: seq<string>, line: string, kind: string, code: nat -> string, expand: string -> seq<Entry>)
    requires NoPair(lines) && Proper(lines + [line]) && Terminated(line) && !IsBegin(line) && !IsEnd(line)
    ensures var content := Join(lines + [BLOCK_LINES[0], line, BLOCK_LINES[4]]);
            && OnePass(content) == Join(lines)
            && Stack(SplitInclusive(content), kind, code, expand)
               == Stack(lines, kind, code, expand) + EntriesOf(line, kind, code(|lines| + 1), expand)
  {
    FiveLines();
    hide *;
    EnclosedIsProper(lines, line);
    SplitOfJoin(lines + [BLOCK_LINES[0], line, BLOCK_LINES[4]]);
    EnclosedRun(lines, line);
    OnePassIs(Join(lines + [BLOCK_LINES[0], line, BLOCK_LINES[4]]));
    BlockEntries(kind, code(|lines|), expand, 0);
    BlockEntries(kind, code(|lines| + 2), expand, 4);
    StackOfThree(lines, BLOCK_LINES[0], line, BLOCK_LINES[4], kind, code, expand);
    NothingAround(Stack(lines, kind, code, expand), EntriesOf(line, kind, code(|lines| + 1), expand));
  }

  lemma FiveLines()
    ensures |BLOCK_LINES| == 5
  {
  }

  lemma NothingAround(a: seq<Entry>, b: seq<Entry>)
    ensures a + [] + b + [] == a + b
  {
  }

  lemma OnePassIs(content: string)
    ensures OnePass(content) == Join(Run([], SplitInclusive(content)))
  {
  }

  lemma StackOfThree(lines: seq<string>, a: string, b: string, c: string, kind: string, code: nat -> string,
                     expand: string -> seq<Entry>)
    ensures Stack(lines + [a, b, c], kind, code, expand)
         == Stack(lines, kind, code, expand) + EntriesOf(a, kind, code(|lines|), expand)
            + EntriesOf(b, kind, code(|lines| + 1), expand) + EntriesOf(c, kind, code(|lines| + 2), expand)
  {
    hide Stack, EntriesOf;
    StackOfOneMore(lines, a, kind, code, expand);
    StackOfOneMore(lines + [a], b, kind, code, expand);
    StackOfOneMore(lines + [a] + [b], c, kind, code, expand);
    assert lines + [a] + [b] + [c] == lines + [a, b, c];
  }

  lemma EnclosedIsProper(lines: seq<string>, line: string)
    requires Proper(lines + [line]) && Terminated(line)
    ensures Proper(lines + [BLOCK_LINES[0], line, BLOCK_LINES[4]])
  {
    BlockIsProper();
    var a, all := lines + [line], lines + [BLOCK_LINES[0], line, BLOCK_LINES[4]];
    assert Proper(BLOCK_LINES) && a[|lines|] == line;
    assert forall i :: 0 <= i < |lines| ==> a[i] == lines[i] == all[i];
    assert Terminated(BLOCK_LINES[0]);
  }

  lemma EnclosedRun(lines: seq<string>, line: string)
    requires NoPair(lines) && !IsBegin(line) && !IsEnd(line)
    ensures Run([], lines + [BLOCK_LINES[0], line, BLOCK_LINES[4]]) == lines
  {
    hide TrimEnd, NoPair;
    BlockMarkers();
    var b, e := BLOCK_LINES[0], BLOCK_LINES[4];
    assert [] + lines == lines && lines + [b, line, e] == lines + ([b, line] + [e]);
    RunWithoutPair([], lines);
    RunAppend([], lines, [b, line] + [e]);
    RunAppend(lines, [b, line], [e]);
    RunOfTwo(lines, b, line);
    var out := lines + [b, line];
    assert out[|lines|] == b && out[|lines| + 1] == line;
    assert LastBegin(out) == |lines| && out[..|lines|] == lines;
    assert [e][1..] == [] && Push(out, e) == lines;
  }

  // ---- The check and the edits -----------------------------------------------------------------

  /** Removing blocks keeps an accepted stack accepted. */
  lemma RemoveKeepsValid(content: string)
    requires ValidStack(content)
    ensures ValidStack(OnePass(content)) && ValidStack(WithNewline(OnePass(content)))
  {
    hide LineFailsOpen, SplitInclusive, OnePass;
    var idx := RemovalKeepsLines(content);
    NewlineKeepsValid(OnePass(content));
  }

  lemma NewlineKeepsValid(s: string)
    ensures ValidStack(WithNewline(s)) <==> ValidStack(s)
  {
    if s != "" && !Terminated(s) {
      hide LineFailsOpen, SplitInclusive;
      var lines := SplitInclusive(s);
      SplitOfEnded(s);
      var n := |lines| - 1;
      LineEndIrrelevant(lines[n]);
      SameButLast(lines, SplitInclusive(s + "\n"));
    }
  }

  lemma SameButLast(lines: seq<string>, ended: seq<string>)
    requires lines != [] && ended == lines[..|lines| - 1] + [lines[|lines| - 1] + "\n"]
    requires LineFailsOpen(lines[|lines| - 1] + "\n") <==> LineFailsOpen(lines[|lines| - 1])
    ensures (forall i :: 0 <= i < |lines| ==> LineFailsOpen(lines[i])) <==> forall i :: 0 <= i < |ended| ==> LineFailsOpen(ended[i])
  {
    hide LineFailsOpen;
    assert forall k :: 0 <= k < |lines| - 1 ==> ended[k] == lines[k];
    assert ended[|lines| - 1] == lines[|lines| - 1] + "\n";
  }

  lemma LineEndIrrelevant(line: string)
    ensures LineFailsOpen(line + "\n") <==> LineFailsOpen(line)
  {
    TrimEndOfEnded(line);
  }

  lemma SplitOfEnded(s: string)
    requires s != "" && !Terminated(s)
    ensures var lines := SplitInclusive(s);
            lines != [] && SplitInclusive(s + "\n") == lines[..|lines| - 1] + [lines[|lines| - 1] + "\n"]
  {
    hide SplitInclusive;
    var lines := SplitInclusive(s);
    SplitIsProper(s);
    LastLineEnds(s);
    EndedLines(lines);
    SplitOfJoin(lines[..|lines| - 1] + [lines[|lines| - 1] + "\n"]);
  }

  /** The edited text passes the check exactly when the text without its blocks does. */
  lemma AddedIsValid(content: string)
    ensures ValidStack(Added(content)) <==> ValidStack(OnePass(content))
  {
    hide LineFailsOpen, SplitInclusive, OnePass;
    LinesOfAdded(content);
    NewlineKeepsValid(OnePass(content));
    var lines := SplitInclusive(WithNewline(OnePass(content)));
    var all := SplitInclusive(Added(content));
    forall i | 0 <= i < 5 ensures LineFailsOpen(BLOCK_LINES[i]) {
      BlockEntries("session", "", _ => [], i);
    }
    assert forall i :: 0 <= i < |lines| ==> all[i] == lines[i];
    assert forall i :: 0 <= i < 5 ==> all[|lines| + i] == BLOCK_LINES[i];
    assert forall i :: 0 <= i < |all| ==> all[i] == if i < |lines| then lines[i] else BLOCK_LINES[i - |lines|];
  }
}

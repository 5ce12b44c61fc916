/** Parsing and checking a stack, and what the check means: the stack machine that the DESCRIPTION of
    Linux-PAM's pam.conf(5) gives to the control field. */
module PamStack {
  import opened Wrappers
  import opened PamText

  // ---- Parsing ---------------------------------------------------------------------------------

  /** A parsed line. The model also keeps the type, which gives a line its stack. */
  datatype PamLine = PamLine(kind: string, control: string, modulePath: string)
  {
    /** `module_is`: the file name, after a tolerated `-`. */
    predicate ModuleIs(name: string) {
      var path := WithoutDash(modulePath);
      path == name || LastComponent(path) == name
    }
  }

  datatype ParseError = UnknownType | UnterminatedGroup | MissingControl | MissingModule | EmptyLine

  function WithoutDash(s: string): string {
    if s != "" && s[0] == '-' then s[1..] else s
  }

  function LastComponent(path: string): string {
    if path == "" || path[|path| - 1] == '/' then "" else LastComponent(path[..|path| - 1]) + [path[|path| - 1]]
  }

  /** Length of the leading token: up to the first whitespace. */
  function TokenLength(s: string): (n: nat)
    ensures n <= |s|
  {
    if s == "" || IsWhitespace(s[0]) then 0 else 1 + TokenLength(s[1..])
  }

  /** `next_token`. */
  function NextToken(s: string): Option<(string, string)> {
    var t := TrimStart(s);
    if t == "" then None else Some((t[..TokenLength(t)], t[TokenLength(t)..]))
  }

  function Find(s: string, c: char): Option<nat> {
    if s == "" then None
    else if s[0] == c then Some(0)
    else match Find(s[1..], c) case None => None case Some(i) => Some(i + 1)
  }

  lemma {:induction false} FindInRange(s: string, c: char)
    ensures Find(s, c).Some? ==> Find(s, c).value < |s|
  {
    if s != "" { FindInRange(s[1..], c); }
  }

  /** The control field and what follows it: a bracketed group, or a token. */
  function ParseControl(rest: string): Result<(string, string), ParseError> {
    if rest != "" && rest[0] == '[' then
      FindInRange(rest, ']');
      match Find(rest, ']')
      case None => Err(UnterminatedGroup)
      case Some(close) => Ok((rest[..close + 1], rest[close + 1..]))
    else
      match NextToken(rest)
      case None => Err(MissingControl)
      case Some(t) => Ok(t)
  }

  /** `parse_line`. */
  function ParseLine(line: string): Result<PamLine, ParseError> {
    match NextToken(Trim(line))
    case None => Err(EmptyLine)
    case Some((ty, afterTy)) =>
      var kind := WithoutDash(ty);
      if kind !in ["auth", "account", "password", "session"] then Err(UnknownType)
      else
        match ParseControl(TrimStart(afterTy))
        case Err(e) => Err(e)
        case Ok((control, afterControl)) =>
          match NextToken(TrimStart(afterControl))
          case None => Err(MissingModule)
          case Some((modulePath, _)) => Ok(PamLine(kind, control, modulePath))
  }

  // ---- The fail-open check ---------------------------------------------------------------------

  /** `split_whitespace`. */
  function Words(s: string): seq<string>
    decreases |s|
  {
    TrimStartShrinks(s);
    var t := TrimStart(s);
    if t == "" then [] else [t[..TokenLength(t)]] + Words(t[TokenLength(t)..])
  }

  lemma {:induction false} TrimStartShrinks(s: string)
    ensures |TrimStart(s)| <= |s|
    ensures TrimStart(s) != "" ==> TokenLength(TrimStart(s)) > 0
  {
    if s != "" && IsWhitespace(s[0]) { TrimStartShrinks(s[1..]); }
  }

  /** `split_once('=')`. */
  function SplitPair(word: string): Option<(string, string)> {
    FindInRange(word, '=');
    match Find(word, '=')
    case None => None
    case Some(i) => Some((Trim(word[..i]), Trim(word[i + 1..])))
  }

  /** One `value=action` word that cannot make a tess failure fail, or grant, the login. */
  predicate WordFailsOpen(word: string) {
    match SplitPair(word)
    case None => false
    case Some((key, value)) =>
      if key == "success" then value in ["ok", "done", "ignore"] else value == "ignore"
  }

  predicate IsDefault(word: string) {
    SplitPair(word).Some? && SplitPair(word).value.0 == "default"
  }

  /** The text between `[` and `]`. */
  function Group(control: string): Option<string> {
    if |control| >= 2 && control[0] == '[' && control[|control| - 1] == ']'
    then Some(control[1..|control| - 1]) else None
  }

  ghost predicate FailsOpen(control: string) {
    var c := Trim(control);
    c == "optional" ||
    (Group(c).Some? &&
     var words := Words(Group(c).value);
     (forall i :: 0 <= i < |words| ==> WordFailsOpen(words[i])) && exists i :: 0 <= i < |words| && IsDefault(words[i]))
  }

  /** `control_is_fail_open`. */
  method ControlIsFailOpen(control: string) returns (r: bool)
    ensures r <==> FailsOpen(control)
  {
    hide Trim, Words, SplitPair;
    var c := Trim(control);
    if c == "optional" { return true; }
    var group := Group(c);
    if group.None? { return false; }
    var words := Words(group.value);
    var defaultIsIgnore := false;
    for i := 0 to |words|
      invariant forall k :: 0 <= k < i ==> WordFailsOpen(words[k])
      invariant defaultIsIgnore <==> exists k :: 0 <= k < i && IsDefault(words[k])
    {
      var pair := SplitPair(words[i]);
      if pair.None? { return false; }
      var (key, value) := pair.value;
      if key == "default" {
        if value != "ignore" { return false; }
        defaultIsIgnore := true;
      } else if key == "success" {
        if value !in ["ok", "done", "ignore"] { return false; }
      } else if value != "ignore" {
        return false;
      }
    }
    r := defaultIsIgnore;
  }

  /** Blank lines, comments and directives are not module lines. */
  predicate IsModuleLine(raw: string) {
    var t := Trim(raw);
    t != "" && t[0] != '#' && t[0] != '@'
  }

  ghost predicate LineFailsOpen(raw: string) {
    IsModuleLine(raw) ==>
      ParseLine(Trim(raw)).Ok? &&
      (ParseLine(Trim(raw)).value.ModuleIs(MODULE_FILE) ==> FailsOpen(ParseLine(Trim(raw)).value.control))
  }

  ghost predicate ValidStack(content: string) {
    forall i :: 0 <= i < |SplitInclusive(content)| ==> LineFailsOpen(SplitInclusive(content)[i])
  }

  datatype ValidationError = Malformed(line: nat, reason: ParseError) | NotFailOpen(line: nat, control: string)

  /** `validate_stack`: the error is about the first offending line. */
  method ValidateStack(content: string) returns (r: Result<(), ValidationError>)
    ensures r.Ok? <==> ValidStack(content)
    ensures r.Err? ==>
              0 < r.error.line <= |Lines(content)| && !LineFailsOpen(Lines(content)[r.error.line - 1])
              && forall k :: 0 <= k < r.error.line - 1 ==> LineFailsOpen(Lines(content)[k])
    ensures r.Err? && r.error.Malformed? ==> ParseLine(Trim(Lines(content)[r.error.line - 1])).Err?
  {
    hide Trim, ParseLine, SplitInclusive, FailsOpen, TrimEnd;
    var lines := Lines(content);
    StrippedFailsOpen(content);
    for i := 0 to |lines|
      invariant forall k :: 0 <= k < i ==> LineFailsOpen(lines[k])
    {
      var trimmed := Trim(lines[i]);
      if trimmed == "" || trimmed[0] == '#' || trimmed[0] == '@' { continue; }
      var parsed := ParseLine(trimmed);
      if parsed.Err? { return Err(Malformed(i + 1, parsed.error)); }
      if parsed.value.ModuleIs(MODULE_FILE) {
        var open := ControlIsFailOpen(parsed.value.control);
        if !open { return Err(NotFailOpen(i + 1, parsed.value.control)); }
      }
    }
    r := Ok(());
  }

  /** The check does not see how a line ends. */
  lemma StrippedFailsOpen(content: string)
    ensures forall i :: 0 <= i < |Lines(content)| ==>
              (LineFailsOpen(Lines(content)[i]) <==> LineFailsOpen(SplitInclusive(content)[i]))
  {
    forall i | 0 <= i < |Lines(content)|
      ensures LineFailsOpen(Lines(content)[i]) <==> LineFailsOpen(SplitInclusive(content)[i])
    {
      TrimOfStripped(SplitInclusive(content)[i]);
    }
  }
}

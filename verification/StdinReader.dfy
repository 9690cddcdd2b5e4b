/** Reading a command line by line until its ';', with comments tracked incrementally. */
module StdinReader {
  import opened Wrappers

  // ----- Comments, as a one-pass lexer over a whole text sees them. String literals are not
  // recognized.

  datatype LexState = Outside | InBlock | InLine

  function Lex(s: string, state: LexState): LexState {
    if s == "" then state
    else
      var two := |s| >= 2;
      match state
      case Outside =>
        if two && s[0] == '/' && s[1] == '*' then Lex(s[2..], InBlock)
        else if two && s[0] == '-' && s[1] == '-' then Lex(s[2..], InLine)
        else Lex(s[1..], Outside)
      case InBlock => if two && s[0] == '*' && s[1] == '/' then Lex(s[2..], Outside) else Lex(s[1..], InBlock)
      case InLine => Lex(s[1..], if s[0] == '\n' then Outside else InLine)
  }

  predicate Token(a: char, b: char) {
    (a == '/' && b == '*') || (a == '*' && b == '/') || (a == '-' && b == '-')
  }

  /** Lexing goes on where it stopped, unless the cut splits a two-character token. */
  lemma {:induction false} LexConcat(a: string, b: string, state: LexState)
    requires a != "" && b != "" ==> !Token(a[|a| - 1], b[0])
    ensures Lex(a + b, state) == Lex(b, Lex(a, state))
  {
    if a == "" {
      assert a + b == b;
    } else {
      assert (a + b)[1..] == a[1..] + b;
      if |a| >= 2 { assert (a + b)[2..] == a[2..] + b; }
      match state
      case Outside =>
        if |a| >= 2 && a[0] == '/' && a[1] == '*' { LexConcat(a[2..], b, InBlock); }
        else if |a| >= 2 && a[0] == '-' && a[1] == '-' { LexConcat(a[2..], b, InLine); }
        else { LexConcat(a[1..], b, Outside); }
      case InBlock =>
        if |a| >= 2 && a[0] == '*' && a[1] == '/' { LexConcat(a[2..], b, Outside); } else { LexConcat(a[1..], b, InBlock); }
      case InLine => LexConcat(a[1..], b, if a[0] == '\n' then Outside else InLine);
    }
  }

  lemma {:induction false} LineCommentLasts(s: string)
    requires '\n' !in s
    ensures Lex(s, InLine) == InLine
  {
    if s != "" { LineCommentLasts(s[1..]); }
  }

  predicate IsSpace(c: char) {
    c == ' ' || '\t' <= c <= '\r'
  }

  predicate AllSpaces(s: string) {
    forall i :: 0 <= i < |s| ==> IsSpace(s[i])
  }

  lemma {:induction false} LexSpaces(s: string, state: LexState)
    requires AllSpaces(s) && '\n' !in s
    ensures Lex(s, state) == state
  {
    if s != "" { LexSpaces(s[1..], state); }
  }

  function StateOf(inBlockComment: bool): LexState {
    if inBlockComment then InBlock else Outside
  }

  // ----- The scanners of a line.

  method UpdateBlockCommentState(line: string, inBlockComment: bool) returns (r: bool)
    requires '\n' !in line
    ensures r <==> Lex(line, StateOf(inBlockComment)) == InBlock
  {
    r := inBlockComment;
    var i := 0;
    while i < |line|
      invariant 0 <= i <= |line| && Lex(line, StateOf(inBlockComment)) == Lex(line[i..], StateOf(r))
    {
      var two := i + 1 < |line|;
      if r {
        if line[i] == '*' && two && line[i + 1] == '/' {
          r := false;
          i := i + 1;
        }
      } else {
        if line[i] == '/' && two && line[i + 1] == '*' {
          r := true;
          i := i + 1;
        } else if line[i] == '-' && two && line[i + 1] == '-' {
          assert line[i..][2..] == line[i + 2..];
          LineCommentLasts(line[i + 2..]);
          return false;
        }
      }
      i := i + 1;
    }
  }

  predicate HasDashes(line: string, start: nat, end: nat)
    requires end <= |line|
  {
    exists i :: start <= i < end - 1 && line[i] == '-' && line[i + 1] == '-'
  }

  method IsSemicolonInLineComment(line: string, start: nat, semicolon: nat) returns (r: bool)
    requires semicolon <= |line|
    ensures r == HasDashes(line, start, semicolon)
  {
    var i := start;
    while i < semicolon
      invariant start <= i
      invariant forall j :: start <= j < i && j + 1 < semicolon ==> !(line[j] == '-' && line[j + 1] == '-')
    {
      if line[i] == '-' && i + 1 < semicolon && line[i + 1] == '-' { return true; }
      i := i + 1;
    }
    return false;
  }

  function LeadingSpaces(line: string): (n: nat)
    ensures n <= |line| && (forall i :: 0 <= i < n ==> IsSpace(line[i])) && (n < |line| ==> !IsSpace(line[n]))
  {
    if line == "" || !IsSpace(line[0]) then 0
    else
      var n := LeadingSpaces(line[1..]);
      assert forall i :: 0 < i < n + 1 ==> line[i] == line[1..][i - 1];
      n + 1
  }

  /** The last position from start on that is not a space. */
  function LastNonSpace(line: string, start: nat): (r: Option<nat>)
    requires start <= |line|
    ensures r.Some? ==> start <= r.value < |line| && !IsSpace(line[r.value])
    ensures r.Some? ==> forall i :: r.value < i < |line| ==> IsSpace(line[i])
    ensures r.None? ==> forall i :: start <= i < |line| ==> IsSpace(line[i])
    decreases |line| - start
  {
    if start == |line| then None
    else
      match LastNonSpace(line, start + 1)
      case Some(i) => Some(i)
      case None => if IsSpace(line[start]) then None else Some(start)
  }

  // ----- Reading as steps.

  /** Ctrl+C discards what was read. Input ends where the events do. */
  datatype Event = Line(text: string) | CtrlC

  datatype State = State(text: string, stripLeadingSpaces: bool, inBlockComment: bool)

  const Empty := State("", true, false)

  datatype Outcome = More(state: State) | Done(command: string)

  predicate Trimmed(c: char) {
    c == ' ' || c == '\t' || c == ';'
  }

  function TrimEnd(s: string): (r: string)
    ensures r <= s && (forall i :: |r| <= i < |s| ==> Trimmed(s[i])) && (r != "" ==> !Trimmed(r[|r| - 1]))
  {
    if s == "" || !Trimmed(s[|s| - 1]) then s else TrimEnd(s[..|s| - 1])
  }

  function Start(state: State, line: string): nat {
    if state.stripLeadingSpaces then LeadingSpaces(line) else 0
  }

  /** The ';' that ends the command on the line, if one does. */
  function Terminator(state: State, line: string): (r: Option<nat>)
    requires Start(state, line) <= |line|
    ensures r.Some? ==> Start(state, line) <= r.value < |line|
  {
    if Lex(line, StateOf(state.inBlockComment)) == InBlock then None
    else
      match LastNonSpace(line, Start(state, line))
      case None => None
      case Some(i) => if line[i] == ';' && !HasDashes(line, Start(state, line), i) then Some(i) else None
  }

  function Read(state: State, e: Event): Outcome {
    match e
    case CtrlC => More(Empty)
    case Line(line) =>
      var start := Start(state, line);
      if start == |line| then More(state)
      else if state.stripLeadingSpaces && line[start] == '.' then Done(TrimEnd(line[start..]))
      else
        match Terminator(state, line)
        case Some(i) => Done(state.text + line[start..i])
        case None => More(State(state.text + line[start..] + "\n", false, Lex(line, StateOf(state.inBlockComment)) == InBlock))
  }

  /** The command, whether input ended, and how many events were read. */
  function ReadAll(state: State, events: seq<Event>): (string, bool, nat)
    decreases events
  {
    if events == [] then (state.text, true, 0)
    else
      match Read(state, events[0])
      case Done(command) => (command, false, 1)
      case More(next) => var (command, atEnd, n) := ReadAll(next, events[1..]); (command, atEnd, n + 1)
  }

  /** Lines have no line ends. */
  predicate ValidEvents(events: seq<Event>) {
    forall i :: 0 <= i < |events| && events[i].Line? ==> '\n' !in events[i].text
  }

  method ReadCommand(events: seq<Event>) returns (command: string, atEnd: bool, n: nat)
    requires ValidEvents(events)
    ensures (command, atEnd, n) == ReadAll(Empty, events)
  {
    var state := Empty;
    n := 0;
    while n < |events|
      invariant n <= |events|
      invariant ReadAll(Empty, events) == After(ReadAll(state, events[n..]), n)
    {
      assert events[n..][1..] == events[n + 1..];
      n := n + 1;
      match events[n - 1]
      case CtrlC => state := Empty;
      case Line(line) =>
        var outcome := ReadLine(state, line);
        match outcome
        case Done(done) => return done, false, n;
        case More(next) => state := next;
    }
    return state.text, true, n;
  }

  function After(r: (string, bool, nat), n: nat): (string, bool, nat) {
    (r.0, r.1, r.2 + n)
  }

  method ReadLine(state: State, line: string) returns (r: Outcome)
    requires '\n' !in line
    ensures r == Read(state, Line(line))
  {
    var start := 0;
    if state.stripLeadingSpaces {
      while start < |line| && IsSpace(line[start])
        invariant start <= |line| && forall i :: 0 <= i < start ==> IsSpace(line[i])
      {
        start := start + 1;
      }
      assert start == LeadingSpaces(line);
    }
    if start == |line| { return More(state); }
    if state.stripLeadingSpaces && line[start] == '.' { return Done(TrimEnd(line[start..])); }
    var endsInComment := UpdateBlockCommentState(line, state.inBlockComment);
    if !endsInComment {
      var i := |line| - 1;
      while i >= start && IsSpace(line[i])
        invariant start - 1 <= i < |line| && forall j :: i < j < |line| ==> IsSpace(line[j])
      {
        i := i - 1;
      }
      assert LastNonSpace(line, start) == if i >= start then Some(i) else None;
      if i >= start && line[i] == ';' {
        var commented := IsSemicolonInLineComment(line, start, i);
        if !commented { return Done(state.text + line[start..i]); }
      }
    }
    r := More(State(state.text + line[start..] + "\n", false, endsInComment));
  }

  // ----- What the flag and the terminator mean.

  ghost predicate Reachable(state: State, events: seq<Event>)
    decreases events
  {
    if events == [] then state == Empty
    else
      var n := |events| - 1;
      exists before :: Reachable(before, events[..n]) && Read(before, events[n]) == More(state)
  }

  ghost predicate Inv(state: State) {
    && Lex(state.text, Outside) == StateOf(state.inBlockComment)
    && (state.text != "" ==> state.text[|state.text| - 1] == '\n')
    && (state.stripLeadingSpaces <==> state.text == "")
  }

  /** Lexing what was read and then part of a line, past the spaces that are dropped, goes on
      from the flag as if the whole line had been there. */
  lemma {:induction false} LexLine(state: State, line: string, end: nat)
    requires Inv(state) && '\n' !in line && Start(state, line) <= end <= |line|
    ensures Lex(state.text + line[Start(state, line)..end], Outside) == Lex(line[..end], StateOf(state.inBlockComment))
  {
    var start := Start(state, line);
    LexConcat(state.text, line[start..end], Outside);
    assert line[..end] == line[..start] + line[start..end];
    LexSpaces(line[..start], StateOf(state.inBlockComment));
    LexConcat(line[..start], line[start..end], StateOf(state.inBlockComment));
  }

  lemma {:induction false} ReadInv(state: State, e: Event)
    requires Inv(state) && Read(state, e).More? && (e.Line? ==> '\n' !in e.text)
    ensures Inv(Read(state, e).state)
  {
    if e.Line? {
      var line := e.text;
      var start := Start(state, line);
      if start < |line| {
        LexLine(state, line, |line|);
        assert line[..|line|] == line && line[start..|line|] == line[start..];
        LexConcat(state.text + line[start..], "\n", Outside);
        LineEnd(Lex(line, StateOf(state.inBlockComment)));
      }
    }
  }

  lemma {:induction false} LineEnd(state: LexState)
    ensures Lex("\n", state) == StateOf(state == InBlock)
  {
    assert "\n"[1..] == "";
  }

  /** At each prompt the flag is the state of the lexer over all the text read since the start
      or the last Ctrl+C. */
  lemma {:induction false} FlagIsLexerState(state: State, events: seq<Event>)
    requires Reachable(state, events) && ValidEvents(events)
    ensures Inv(state)
    decreases events
  {
    if events != [] {
      var n := |events| - 1;
      var before :| Reachable(before, events[..n]) && Read(before, events[n]) == More(state);
      FlagIsLexerState(before, events[..n]);
      ReadInv(before, events[n]);
    }
  }

  lemma {:induction false} NoDashesNoLineComment(s: string, state: LexState)
    requires state != InLine && forall i :: 0 <= i < |s| - 1 ==> !(s[i] == '-' && s[i + 1] == '-')
    ensures Lex(s, state) != InLine
  {
    if s != "" {
      if |s| >= 2 && state == Outside && s[0] == '/' && s[1] == '*' {
        NoDashesNoLineComment(s[2..], InBlock);
      } else if |s| >= 2 && state == InBlock && s[0] == '*' && s[1] == '/' {
        NoDashesNoLineComment(s[2..], Outside);
      } else {
        assert |s| >= 2 ==> !(s[0] == '-' && s[1] == '-');
        NoDashesNoLineComment(s[1..], state);
      }
    }
  }

  /** The line ends a command exactly when its last character but spaces is a ';' that the lexer
      over the text so far finds outside comments, and no "--" comes before it on the line. */
  lemma {:induction false} TerminatesExactly(state: State, line: string)
    requires Inv(state) && '\n' !in line && Start(state, line) < |line|
    ensures var last := LastNonSpace(line, Start(state, line));
            Terminator(state, line).Some? <==>
              && last.Some? && line[last.value] == ';'
              && Lex(state.text + line[Start(state, line)..last.value], Outside) == Outside
              && !HasDashes(line, Start(state, line), last.value)
    ensures Terminator(state, line).Some? ==> Terminator(state, line) == LastNonSpace(line, Start(state, line))
  {
    var last := LastNonSpace(line, Start(state, line));
    if last.Some? && line[last.value] == ';' && !HasDashes(line, Start(state, line), last.value) {
      LexToSemicolon(state, line, last.value);
    }
  }

  lemma {:induction false} LexToSemicolon(state: State, line: string, i: nat)
    requires Inv(state) && '\n' !in line && Start(state, line) <= i < |line| && line[i] == ';'
    requires (forall j :: i < j < |line| ==> IsSpace(line[j])) && !HasDashes(line, Start(state, line), i)
    ensures var before := Lex(state.text + line[Start(state, line)..i], Outside);
            before != InLine && before == Lex(line, StateOf(state.inBlockComment))
  {
    var start := Start(state, line);
    var flag := StateOf(state.inBlockComment);
    LexLine(state, line, i);
    LexPastSemicolon(line, i, flag);
    assert Lex(state.text + line[start..i], Outside) == Lex(line[start..i], flag) by { LexConcat(state.text, line[start..i], Outside); }
    NoDashesWithin(line, start, i, flag);
  }

  lemma {:induction false} LexPastSemicolon(line: string, i: nat, flag: LexState)
    requires i < |line| && line[i] == ';' && '\n' !in line && forall j :: i < j < |line| ==> IsSpace(line[j])
    ensures Lex(line, flag) == Lex(line[..i], flag)
  {
    var rest := line[i..];
    assert line == line[..i] + rest;
    LexConcat(line[..i], rest, flag);
    AfterSemicolon(rest, Lex(line[..i], flag));
  }

  lemma {:induction false} NoDashesWithin(line: string, start: nat, i: nat, flag: LexState)
    requires start <= i <= |line| && !HasDashes(line, start, i) && flag != InLine
    ensures Lex(line[start..i], flag) != InLine
  {
    var s := line[start..i];
    forall k | 0 <= k < |s| - 1 ensures !(s[k] == '-' && s[k + 1] == '-') {
      assert s[k] == line[start + k] && s[k + 1] == line[start + k + 1];
    }
    NoDashesNoLineComment(s, flag);
  }

  lemma {:induction false} AfterSemicolon(s: string, state: LexState)
    requires s != "" && s[0] == ';' && AllSpaces(s[1..]) && '\n' !in s
    ensures Lex(s, state) == state
  {
    LexSpaces(s[1..], state);
  }

  /** So the ';' of every command read lies outside comments. */
  lemma {:induction false} EveryTerminatorOutside(state: State, events: seq<Event>, line: string)
    requires Reachable(state, events) && ValidEvents(events) && '\n' !in line && Start(state, line) < |line|
    requires Terminator(state, line).Some?
    ensures var i := Terminator(state, line).value;
            line[i] == ';' && Lex(state.text + line[Start(state, line)..i], Outside) == Outside
  {
    FlagIsLexerState(state, events);
    TerminatesExactly(state, line);
  }

  /** A "--" inside a block comment keeps a ';' outside it from ending the command. */
  lemma {:induction false} DashesInBlockComment()
    ensures Lex("/*--*/1", Outside) == Outside && Terminator(Empty, "/*--*/1;") == None
  {
    var line := "/*--*/1;";
    assert LeadingSpaces(line) == 0;
    assert line[0..7] == "/*--*/1";
    var s := "/*--*/1";
    assert s[2..] == "--*/1" && s[2..][1..] == "-*/1" && s[2..][1..][1..] == "*/1";
    assert "*/1"[2..] == "1" && "1"[1..] == "";
    assert line[2] == '-' && line[3] == '-';
    assert HasDashes(line, 0, 7);
    assert LastNonSpace(line, 0) == Some(7);
  }

  // ----- What command is returned, told of the lines alone.

  /** The lines since the last Ctrl+C. */
  function SinceInterrupt(events: seq<Event>): seq<string> {
    if events == [] then []
    else
      match events[|events| - 1]
      case CtrlC => []
      case Line(line) => SinceInterrupt(events[..|events| - 1]) + [line]
  }

  /** The lines that count: blank ones do not before the first that does, empty ones never. */
  function Kept(lines: seq<string>): seq<string> {
    if lines == [] then []
    else
      var n := |lines| - 1;
      var earlier := Kept(lines[..n]);
      if Dropped(earlier, lines[n]) then earlier else earlier + [lines[n]]
  }

  predicate Dropped(earlier: seq<string>, line: string) {
    if earlier == [] then AllSpaces(line) else line == ""
  }

  /** The first line without its leading spaces, any other as it is. */
  function Shown(lines: seq<string>, k: nat): (r: string)
    requires k < |lines|
    ensures k > 0 ==> r == lines[k]
    ensures k == 0 ==> (r != "" ==> !IsSpace(r[0])) && exists spaces :: AllSpaces(spaces) && spaces + r == lines[0]
  {
    var line := lines[k];
    assert AllSpaces(line[..LeadingSpaces(line)]) && line[..LeadingSpaces(line)] + line[LeadingSpaces(line)..] == line;
    if k == 0 then line[LeadingSpaces(line)..] else line
  }

  /** The lines, each with a line end. */
  function Joined(lines: seq<string>): string {
    if lines == [] then "" else Joined(lines[..|lines| - 1]) + Shown(lines, |lines| - 1) + "\n"
  }

  /** A ';' that only spaces follow, outside comments, with no "--" before it on its line. */
  ghost predicate EndsAt(before: string, line: string, i: nat) {
    && i < |line| && line[i] == ';' && AllSpaces(line[i + 1..])
    && Lex(before + line[..i], Outside) == Outside && !HasDashes(line, 0, i)
  }

  /** The last event is a line that counts and ends the command: a first line starting with a dot
      is a command without what trails it; else the lines are, up to a ';' that ends the last. */
  ghost predicate EndsCommand(events: seq<Event>, command: string) {
    events != [] && events[|events| - 1].Line? &&
    var lines, n := Kept(SinceInterrupt(events)), |Kept(SinceInterrupt(events[..|events| - 1]))|;
    |lines| == n + 1 && LineEnds(n == 0, Joined(lines[..n]), Shown(lines, n), command)
  }

  ghost predicate LineEnds(first: bool, before: string, line: string, command: string) {
    if first && line != "" && line[0] == '.' then command == TrimEnd(line)
    else exists i: nat :: EndsAt(before, line, i) && command == before + line[..i]
  }

  lemma {:induction false} LeadingAll(line: string)
    ensures LeadingSpaces(line) == |line| <==> AllSpaces(line)
  {
  }

  /** What is kept between lines is the text of those that count. */
  ghost predicate Keeps(state: State, events: seq<Event>) {
    && state.text == Joined(Kept(SinceInterrupt(events)))
    && (state.stripLeadingSpaces <==> Kept(SinceInterrupt(events)) == [])
  }

  lemma {:induction false} StateText(state: State, events: seq<Event>)
    requires Reachable(state, events)
    ensures Keeps(state, events)
    decreases events
  {
    if events != [] {
      var earlier, e := events[..|events| - 1], events[|events| - 1];
      assert earlier + [e] == events;
      var before :| Reachable(before, earlier) && Read(before, e) == More(state);
      StateText(before, earlier);
      TextStep(before, state, earlier, e);
    }
  }

  lemma {:induction false} TextStep(before: State, state: State, earlier: seq<Event>, e: Event)
    requires Keeps(before, earlier) && Read(before, e) == More(state)
    ensures Keeps(state, earlier + [e])
  {
    SinceStep(earlier, e);
    if e.Line? { LineText(before, SinceInterrupt(earlier), e.text); }
  }

  lemma {:induction false} SinceStep(earlier: seq<Event>, e: Event)
    ensures SinceInterrupt(earlier + [e]) == match e case CtrlC => [] case Line(line) => SinceInterrupt(earlier) + [line]
  {
    assert (earlier + [e])[..|earlier|] == earlier;
  }

  lemma {:induction false} LineText(before: State, lines: seq<string>, line: string)
    requires before.text == Joined(Kept(lines)) && (before.stripLeadingSpaces <==> Kept(lines) == [])
    ensures var all := Kept(lines + [line]);
            && (Start(before, line) == |line| <==> Dropped(Kept(lines), line))
            && (Start(before, line) == |line| ==> all == Kept(lines))
            && (Start(before, line) < |line| ==>
                  && |all| == |Kept(lines)| + 1 && all[..|all| - 1] == Kept(lines)
                  && Shown(all, |all| - 1) == line[Start(before, line)..]
                  && Joined(all) == before.text + line[Start(before, line)..] + "\n")
  {
    LeadingAll(line);
    assert (lines + [line])[..|lines|] == lines;
    if Start(before, line) < |line| {
      var all := Kept(lines) + [line];
      assert all[..|all| - 1] == Kept(lines);
    }
  }

  lemma {:induction false} TerminatorEnds(state: State, line: string)
    requires Inv(state) && '\n' !in line && Start(state, line) < |line|
    ensures var start := Start(state, line);
            forall i: nat :: EndsAt(state.text, line[start..], i) <==> Terminator(state, line) == Some(start + i)
  {
    var start := Start(state, line);
    forall i: nat ensures EndsAt(state.text, line[start..], i) <==> Terminator(state, line) == Some(start + i) {
      EndsHere(state, line, i);
    }
  }

  lemma {:induction false} EndsHere(state: State, line: string, i: nat)
    requires Inv(state) && '\n' !in line && Start(state, line) < |line|
    ensures EndsAt(state.text, line[Start(state, line)..], i) <==> Terminator(state, line) == Some(Start(state, line) + i)
  {
    var start := Start(state, line);
    TerminatesExactly(state, line);
    if start + i < |line| {
      TailFrom(line, start, i);
      SameDashes(line, start, i);
    }
  }

  lemma {:induction false} TailFrom(line: string, start: nat, i: nat)
    requires start + i < |line|
    ensures line[start..][..i] == line[start..start + i] && line[start..][i] == line[start + i]
    ensures line[start + i] == ';' ==> (AllSpaces(line[start..][i + 1..]) <==> LastNonSpace(line, start) == Some(start + i))
  {
    var rest := line[start..][i + 1..];
    assert forall j :: start + i < j < |line| ==> rest[j - start - i - 1] == line[j];
    assert forall j :: 0 <= j < |rest| ==> rest[j] == line[start + i + 1 + j];
  }

  lemma {:induction false} SameDashes(line: string, start: nat, i: nat)
    requires start + i <= |line|
    ensures HasDashes(line[start..], 0, i) <==> HasDashes(line, start, start + i)
  {
    if k :| start <= k < start + i - 1 && line[k] == '-' && line[k + 1] == '-' {
      assert line[start..][k - start] == '-' && line[start..][k - start + 1] == '-';
    }
  }

  /** An event ends the command exactly when the lines say so, and with what they say. */
  lemma {:induction false} StepEnds(state: State, before: seq<Event>, e: Event)
    requires Reachable(state, before) && ValidEvents(before) && (e.Line? ==> '\n' !in e.text)
    ensures Read(state, e).Done? ==> EndsCommand(before + [e], Read(state, e).command)
    ensures Read(state, e).More? ==> Unended(before + [e])
  {
    StateText(state, before);
    if e.Line? {
      FlagIsLexerState(state, before);
      if Start(state, e.text) < |e.text| { LineStepEnds(state, e.text); }
      forall command
        ensures EndsCommand(before + [e], command) <==>
                Start(state, e.text) < |e.text|
                && LineEnds(state.stripLeadingSpaces, state.text, e.text[Start(state, e.text)..], command)
      {
        LineEndsCommand(state, before, e.text, command);
      }
    }
  }

  lemma {:induction false} LineEndsCommand(state: State, before: seq<Event>, line: string, command: string)
    requires Keeps(state, before)
    ensures EndsCommand(before + [Line(line)], command) <==>
            Start(state, line) < |line| && LineEnds(state.stripLeadingSpaces, state.text, line[Start(state, line)..], command)
  {
    var events := before + [Line(line)];
    assert events[..|events| - 1] == before;
    SinceStep(before, Line(line));
    LineText(state, SinceInterrupt(before), line);
  }

  lemma {:induction false} LineStepEnds(state: State, line: string)
    requires Inv(state) && '\n' !in line && Start(state, line) < |line|
    ensures var r, tail := Read(state, Line(line)), line[Start(state, line)..];
            && (r.Done? ==> LineEnds(state.stripLeadingSpaces, state.text, tail, r.command))
            && (r.More? ==> forall command :: !LineEnds(state.stripLeadingSpaces, state.text, tail, command))
  {
    var start := Start(state, line);
    TerminatorEnds(state, line);
    if Terminator(state, line).Some? {
      var i := Terminator(state, line).value - start;
      assert EndsAt(state.text, line[start..], i) && line[start..][..i] == line[start..start + i];
    }
  }

  lemma {:induction false} ReachesNext(state: State, before: seq<Event>, e: Event)
    requires Reachable(state, before) && Read(state, e).More?
    ensures Reachable(Read(state, e).state, before + [e])
  {
    assert (before + [e])[..|before|] == before;
  }

  /** The command of the first event that ends one, or at the end of the input, the text of all the
      lines that count. */
  ghost predicate RightlyRead(events: seq<Event>, command: string, atEnd: bool, n: nat) {
    && n <= |events| && NoneEnds(events, n)
    && (if atEnd then n == |events| && Unended(events) && command == Joined(Kept(SinceInterrupt(events)))
        else EndsCommand(events[..n], command))
  }

  ghost predicate Unended(events: seq<Event>) {
    forall command :: !EndsCommand(events, command)
  }

  /** No event before the n-th ends a command. */
  ghost predicate NoneEnds(events: seq<Event>, n: nat)
    requires n <= |events|
  {
    forall m :: 0 < m < n ==> Unended(events[..m])
  }

  /** That is what reading returns. */
  lemma {:induction false} CommandRead(events: seq<Event>)
    requires ValidEvents(events)
    ensures var r := ReadAll(Empty, events); RightlyRead(events, r.0, r.1, r.2)
  {
    assert events[0..] == events && events[..0] == [];
    RestRead(Empty, events, 0);
    ReadAtIsReadAll(Empty, events, 0);
  }

  /** Reading from an event on; the count is of all events. */
  function ReadAt(state: State, events: seq<Event>, k: nat): (string, bool, nat)
    requires k <= |events|
    decreases |events| - k
  {
    if k == |events| then (state.text, true, k)
    else
      match Read(state, events[k])
      case Done(command) => (command, false, k + 1)
      case More(next) => ReadAt(next, events, k + 1)
  }

  lemma {:induction false} ReadAtIsReadAll(state: State, events: seq<Event>, k: nat)
    requires k <= |events|
    ensures After(ReadAll(state, events[k..]), k) == ReadAt(state, events, k)
    decreases |events| - k
  {
    if k < |events| {
      assert events[k..][1..] == events[k + 1..];
      if Read(state, events[k]).More? { ReadAtIsReadAll(Read(state, events[k]).state, events, k + 1); }
    }
  }

  lemma {:induction false} RestRead(state: State, events: seq<Event>, k: nat)
    requires k <= |events| && ValidEvents(events) && Reachable(state, events[..k])
    requires NoneEnds(events, k) && (k > 0 ==> Unended(events[..k]))
    ensures var r := ReadAt(state, events, k); RightlyRead(events, r.0, r.1, r.2)
    decreases |events| - k
  {
    if k == |events| {
      assert events[..k] == events;
      AtEnd(state, events);
    } else {
      NextEvent(state, events, k);
      NoneEndsNext(events, k);
      match Read(state, events[k])
      case Done(command) => EndsHereRightly(events, k, command);
      case More(next) => RestRead(next, events, k + 1);
    }
  }

  lemma {:induction false} EndsHereRightly(events: seq<Event>, k: nat, command: string)
    requires k < |events| && NoneEnds(events, k + 1) && EndsCommand(events[..k + 1], command)
    ensures RightlyRead(events, command, false, k + 1)
  {
  }

  lemma {:induction false} NoneEndsNext(events: seq<Event>, k: nat)
    requires k < |events| && NoneEnds(events, k) && (k > 0 ==> Unended(events[..k]))
    ensures NoneEnds(events, k + 1)
  {
  }

  lemma {:induction false} ReadStep(state: State, events: seq<Event>, k: nat)
    requires k < |events|
    ensures ReadAll(state, events[k..]) ==
            match Read(state, events[k])
            case Done(command) => (command, false, 1)
            case More(next) => After(ReadAll(next, events[k + 1..]), 1)
  {
    assert events[k..][1..] == events[k + 1..];
  }

  lemma {:induction false} AtEnd(state: State, events: seq<Event>)
    requires ValidEvents(events) && Reachable(state, events[..|events|])
    requires NoneEnds(events, |events|) && (events != [] ==> Unended(events))
    ensures RightlyRead(events, state.text, true, |events|)
  {
    assert events[..|events|] == events;
    StateText(state, events);
  }

  lemma {:induction false} NextEvent(state: State, events: seq<Event>, k: nat)
    requires k < |events| && ValidEvents(events) && Reachable(state, events[..k])
    ensures Read(state, events[k]).Done? ==> EndsCommand(events[..k + 1], Read(state, events[k]).command)
    ensures Read(state, events[k]).More? ==> Unended(events[..k + 1]) && Reachable(Read(state, events[k]).state, events[..k + 1])
  {
    assert events[..k + 1] == events[..k] + [events[k]];
    assert forall i :: 0 <= i < k ==> events[..k][i] == events[i];
    StepEnds(state, events[..k], events[k]);
    if Read(state, events[k]).More? { ReachesNext(state, events[..k], events[k]); }
  }
}

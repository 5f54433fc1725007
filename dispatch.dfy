/**
 The dispatcher: which action a typed line selects, and the sub-loop that
 collects the content for `/write`.
 */
module Dispatch {
  import opened Text

  /** The slash-commands that need an argument. */
  datatype Slash = ExecCommand | ReadCommand | WriteCommand

  datatype Action =
    | Exit
    | Exec(command: string)
    | Read(path: string)
    | Write(path: string)
    | MissingArgument(slash: Slash)
    | SystemInfo
    | Processes
    | Generate(prompt: string)
    | Chat(text: string)

  /** The tests of the main loop, in order, on the stripped line. */
  function Classify(line: string): Action {
    var s := Strip(line);
    if Lower(s) == "exit" || Lower(s) == "quit" then Exit
    else if StartsWith(s, "/exec ") then
      if s[6..] != "" then Exec(s[6..]) else MissingArgument(ExecCommand)
    else if StartsWith(s, "/read ") then
      if s[6..] != "" then Read(s[6..]) else MissingArgument(ReadCommand)
    else if StartsWith(s, "/write ") then
      if s[7..] != "" then Write(s[7..]) else MissingArgument(WriteCommand)
    else if s == "/sysinfo" then SystemInfo
    else if s == "/processes" then Processes
    else if StartsWith(s, "/code") || StartsWith(s, "/cmd") then Generate(AfterFirstSpace(s))
    else Chat(s)
  }

  /** A stripped line that starts with a slash is never an exit word. */
  lemma SlashIsNotExit(s: string)
    requires |s| > 0 && s[0] == '/'
    ensures Lower(s) != "exit" && Lower(s) != "quit"
  {
    assert Lower(s)[0] == '/';
  }

  /** The stripped line ends with a character that is not a space, so the
      argument after "/exec ", "/read " or "/write " is never empty and no
      "please provide" reply can be given. */
  lemma NoMissingArgument(line: string)
    ensures !Classify(line).MissingArgument?
  {
    var s := Strip(line);
    if StartsWith(s, "/exec ") || StartsWith(s, "/read ") {
      assert s[5] == ' ';
      assert |s| > 6;
    }
    if StartsWith(s, "/write ") {
      assert s[6] == ' ';
      assert |s| > 7;
    }
  }

  /** Whatever follows "/exec " on the stripped line is run, exactly as
      typed; the exit test, the only one before it, cannot match such a
      line. */
  lemma ExecArgument(line: string)
    requires StartsWith(Strip(line), "/exec ")
    ensures Classify(line) == Exec(Strip(line)[6..])
  {
    SlashIsNotExit(Strip(line));
    NoMissingArgument(line);
  }

  /** Likewise for "/read ", which comes second. */
  lemma ReadArgument(line: string)
    requires StartsWith(Strip(line), "/read ")
    ensures Classify(line) == Read(Strip(line)[6..])
  {
    var s := Strip(line);
    assert s[1] == 'r';
    assert !StartsWith(s, "/exec ");
    SlashIsNotExit(s);
    NoMissingArgument(line);
  }

  /** Likewise for "/write ", which comes third. */
  lemma WriteArgument(line: string)
    requires StartsWith(Strip(line), "/write ")
    ensures Classify(line) == Write(Strip(line)[7..])
  {
    var s := Strip(line);
    assert s[1] == 'w';
    assert !StartsWith(s, "/exec ") && !StartsWith(s, "/read ");
    SlashIsNotExit(s);
    NoMissingArgument(line);
  }

  /** A line that no test claims is chat, with its stripped text: the
      converse of `ChatWhenNoTestMatches`. */
  lemma ChatIsStrippedLine(line: string)
    requires Classify(line).Chat?
    ensures Classify(line).text == Strip(line)
    ensures var s := Strip(line);
      && Lower(s) != "exit" && Lower(s) != "quit"
      && !StartsWith(s, "/exec ") && !StartsWith(s, "/read ") && !StartsWith(s, "/write ")
      && s != "/sysinfo" && s != "/processes"
      && !StartsWith(s, "/code") && !StartsWith(s, "/cmd")
  {
  }

  /** The exit words ignore case and surrounding spaces. */
  lemma ExitIgnoresCaseAndSpaces()
    ensures Classify("  QuIt ") == Exit
  {
    assert Strip("  QuIt ") == "QuIt" by {
      assert "  QuIt " == "  " + "QuIt" + " ";
      StripPadded("  ", "QuIt", " ");
    }
    assert Lower("QuIt") == "quit" by {
      assert Lower("QuIt")[0] == 'q' && Lower("QuIt")[1] == 'u';
      assert Lower("QuIt")[2] == 'i' && Lower("QuIt")[3] == 't';
    }
  }

  /** A line that none of the loop's tests claims is chat. */
  lemma ChatWhenNoTestMatches(line: string)
    requires var s := Strip(line);
      && Lower(s) != "exit" && Lower(s) != "quit"
      && !StartsWith(s, "/exec ") && !StartsWith(s, "/read ") && !StartsWith(s, "/write ")
      && s != "/sysinfo" && s != "/processes"
      && !StartsWith(s, "/code") && !StartsWith(s, "/cmd")
    ensures Classify(line) == Chat(Strip(line))
  {
  }

  /** A line starting with "/" and a character that starts no command
      name is chat, kept exactly as typed once stripped. */
  lemma UnknownSlashIsChat(line: string)
    requires Trimmed(line) && |line| >= 2 && line[0] == '/'
    requires line[1] !in ['e', 'r', 'w', 's', 'p', 'c']
    ensures Classify(line) == Chat(line)
  {
    StripTrimmed(line);
    SlashIsNotExit(line);
    assert !StartsWith(line, "/exec ") && !StartsWith(line, "/read ") && !StartsWith(line, "/write ") by {
      assert "/exec "[1] == 'e' && "/read "[1] == 'r' && "/write "[1] == 'w';
    }
    assert line != "/sysinfo" && line != "/processes" by {
      assert "/sysinfo"[1] == 's' && "/processes"[1] == 'p';
    }
    assert !StartsWith(line, "/code") && !StartsWith(line, "/cmd") by {
      assert "/code"[1] == 'c' && "/cmd"[1] == 'c';
    }
    ChatWhenNoTestMatches(line);
  }

  /** "/sysinfo" must match exactly: in capitals it is chat. */
  lemma SystemInfoIsCaseSensitive()
    ensures Classify("/SYSINFO") == Chat("/SYSINFO")
  {
    var s := "/SYSINFO";
    assert s[1] == 'S' && !IsSpace(s[0]) && !IsSpace(s[|s| - 1]);
    UnknownSlashIsChat(s);
  }

  /** "/code" is a plain prefix test: "/codex" asks for code, with an
      empty prompt since the line holds no space. */
  lemma CodePrefixOnly()
    ensures Classify("/codex") == Generate("")
  {
    var s := "/codex";
    assert Strip(s) == s by {
      StripTrimmed(s);
    }
    SlashIsNotExit(s);
    assert s[1] == 'c';
    assert s[..5] == "/code";
    assert ' ' !in s;
  }

  /** A bare "/exec" lacks the space its prefix test needs and is chat. */
  lemma BareExecIsChat()
    ensures Classify("/exec") == Chat("/exec")
  {
    var s := "/exec";
    assert Strip(s) == s by {
      StripTrimmed(s);
    }
    SlashIsNotExit(s);
    assert |s| == 5 && s[1] == 'e' && s[2] == 'x';
    assert !StartsWith(s, "/exec ") && !StartsWith(s, "/read ") && !StartsWith(s, "/write ");
    assert s != "/sysinfo" && s != "/processes";
    assert !StartsWith(s, "/code") && !StartsWith(s, "/cmd") by {
      assert "/code"[2] == 'o' && "/cmd"[1] == 'c';
    }
    ChatWhenNoTestMatches(s);
  }

  /** What the content prompt of `/write` reads: a line, the end of input
      (Ctrl+D), or a keyboard interrupt (Ctrl+C). */
  datatype InputEvent = Line(text: string) | EndOfInput | Interrupt

  /** The content collected, or the write abandoned. */
  datatype Collected = Content(text: string) | Aborted

  /** The lines, each followed by a newline. */
  function JoinLines(lines: seq<string>): string {
    if lines == [] then "" else lines[0] + "\n" + JoinLines(lines[1..])
  }

  /** The events that deliver the given lines. */
  function Lines(texts: seq<string>): (events: seq<InputEvent>)
    ensures |events| == |texts|
    ensures forall k :: 0 <= k < |texts| ==> events[k] == Line(texts[k])
  {
    seq(|texts|, k requires 0 <= k < |texts| => Line(texts[k]))
  }

  /** What the content prompt collects from the events it reads: lines up
      to the end of input, which also ends when the events run out, or
      nothing at all if an interrupt comes first. */
  function Collect(events: seq<InputEvent>): Collected {
    if events == [] then Content("")
    else
      match events[0]
      case EndOfInput => Content("")
      case Interrupt => Aborted
      case Line(text) =>
        match Collect(events[1..])
        case Content(rest) => Content(text + "\n" + rest)
        case Aborted => Aborted
  }

  lemma {:induction false} JoinLinesSnoc(lines: seq<string>, last: string)
    ensures JoinLines(lines + [last]) == JoinLines(lines) + last + "\n"
  {
    if lines != [] {
      assert (lines + [last])[1..] == lines[1..] + [last];
      JoinLinesSnoc(lines[1..], last);
    }
  }

  /** Collecting events that start with some lines gives those lines in
      front of what the rest collects. */
  lemma {:induction false} CollectAfterLines(texts: seq<string>, rest: seq<InputEvent>)
    ensures Collect(Lines(texts) + rest)
            == match Collect(rest)
               case Content(c) => Content(JoinLines(texts) + c)
               case Aborted => Aborted
  {
    if texts != [] {
      var events := Lines(texts) + rest;
      assert events[0] == Line(texts[0]);
      assert events[1..] == Lines(texts[1..]) + rest;
      CollectAfterLines(texts[1..], rest);
    } else {
      assert Lines(texts) + rest == rest;
    }
  }

  /** The lines read before the end of input, each followed by a newline;
      nothing if the end of input comes first. */
  lemma CollectUntilEnd(texts: seq<string>, rest: seq<InputEvent>)
    ensures Collect(Lines(texts) + [EndOfInput] + rest) == Content(JoinLines(texts))
    ensures Collect([EndOfInput] + rest) == Content("")
  {
    assert Lines(texts) + [EndOfInput] + rest == Lines(texts) + ([EndOfInput] + rest);
    CollectAfterLines(texts, [EndOfInput] + rest);
  }

  /** An interrupt before the end of input abandons the write, whatever
      was typed before it. */
  lemma CollectInterrupted(texts: seq<string>, rest: seq<InputEvent>)
    ensures Collect(Lines(texts) + [Interrupt] + rest) == Aborted
  {
    assert Lines(texts) + [Interrupt] + rest == Lines(texts) + ([Interrupt] + rest);
    CollectAfterLines(texts, [Interrupt] + rest);
  }

  /** The `/write` content prompt: reads events until the end of input,
      appending each line and a newline to the content; an interrupt
      leaves the loop with nothing to write. */
  method CollectContent(events: seq<InputEvent>) returns (r: Collected)
    ensures r == Collect(events)
  {
    var content := "";
    var i := 0;
    while true
      invariant 0 <= i <= |events|
      invariant forall k :: 0 <= k < i ==> events[k].Line?
      invariant content == JoinLines(seq(i, k requires 0 <= k < i => events[k].text))
      decreases |events| - i
    {
      if i == |events| || events[i].EndOfInput? {
        break;
      }
      if events[i].Interrupt? {
        r := Aborted;
        ghost var texts := seq(i, k requires 0 <= k < i => events[k].text);
        assert events == Lines(texts) + events[i..];
        CollectAfterLines(texts, events[i..]);
        return;
      }
      ghost var texts := seq(i, k requires 0 <= k < i => events[k].text);
      JoinLinesSnoc(texts, events[i].text);
      assert seq(i + 1, k requires 0 <= k < i + 1 => events[k].text) == texts + [events[i].text];
      content := content + events[i].text + "\n";
      i := i + 1;
    }
    ghost var texts := seq(i, k requires 0 <= k < i => events[k].text);
    assert events == Lines(texts) + events[i..];
    CollectAfterLines(texts, events[i..]);
    r := Content(content);
  }
}

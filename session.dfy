/**
 The main loop: the chat history that plain chat appends to, the handling
 of one typed line, and the loop that handles lines until an exit word.
 Everything outside the program (the prompts, the shell, the file system,
 the completion service) is what a `World` answers for that line.
 */
module Session {
  import opened Executor
  import opened Remote
  import opened Files
  import opened Dispatch

  /** What the outside world answers while one typed line is handled. */
  datatype World = World(
    answer: Answer,                            // the danger prompt
    shell: string -> RunOutcome,               // running a command
    readFs: string -> ReadOutcome,             // reading a path
    writeFs: (string, string) -> WriteOutcome, // writing content to a path
    typed: seq<InputEvent>,                    // what the `/write` prompt reads
    service: seq<Turn> -> ApiOutcome)          // the completion service

  /** One typed line and the world it meets. */
  datatype Entry = Entry(line: string, world: World)

  /** What the program prints for a line. */
  datatype Reply =
    | ExecReply(execResult: ExecResult)
    | MissingReply(slash: Slash)
    | ReadReply(readResult: ReadResult)
    | WriteReply(writeResult: WriteResult)
    | WriteCancelled
    | SystemInfoReply
    | ProcessesReply
    | ChatbotReply(text: string)

  datatype Output = Goodbye | Say(reply: Reply)

  /** The system instruction of `/code` and `/cmd`, written in short
      pieces so that the verifier can index into it. */
  const CodeOnlyInstruction: string :=
    "You are a helpful assistant " + "that ONLY responds with shell " + "commands or code snippets. " + "No explanations."

  /** The fresh two-turn request of `/code` and `/cmd`. */
  function GenerateRequest(prompt: string): seq<Turn> {
    [Turn(System, CodeOnlyInstruction), Turn(User, prompt)]
  }

  /** What is printed for a line that selects `action` when the history so
      far is `history`. */
  function Respond(history: seq<Turn>, action: Action, w: World): Output {
    match action
    case Exit => Goodbye
    case Exec(command) => Say(ExecReply(Execute(command, w.answer, w.shell(command))))
    case Read(path) => Say(ReadReply(ReadFile(path, w.readFs(path))))
    case Write(path) =>
      (match Collect(w.typed)
       case Aborted => Say(WriteCancelled)
       case Content(content) => Say(WriteReply(WriteFile(path, w.writeFs(path, content)))))
    case MissingArgument(slash) => Say(MissingReply(slash))
    case SystemInfo => Say(SystemInfoReply)
    case Processes => Say(ProcessesReply)
    case Generate(prompt) => Say(ChatbotReply(Connect(w.service(GenerateRequest(prompt)))))
    case Chat(text) => Say(ChatbotReply(Connect(w.service(history + [Turn(User, text)]))))
  }

  /** The history after a line that selects `action`: plain chat adds the
      user's turn and the reply to it; nothing else touches the history. */
  function NextHistory(history: seq<Turn>, action: Action, w: World): seq<Turn> {
    match action
    case Chat(text) =>
      var asked := history + [Turn(User, text)];
      asked + [Turn(Assistant, Connect(w.service(asked)))]
    case _ => history
  }

  /** User and assistant turns alternate, starting with the user. */
  predicate Alternating(history: seq<Turn>) {
    && |history| % 2 == 0
    && forall i :: 0 <= i < |history| ==> history[i].role == (if i % 2 == 0 then User else Assistant)
  }

  /** A typed line as the loop sees it once its tests have run: the action
      it selects, and the world it meets. */
  datatype Event = Event(action: Action, world: World)

  /** The events of the lines typed. */
  function Events(entries: seq<Entry>): seq<Event> {
    if entries == [] then []
    else [Event(Classify(entries[0].line), entries[0].world)] + Events(entries[1..])
  }

  /** The history after the events, up to the first exit word. */
  function Replay(history: seq<Turn>, events: seq<Event>): seq<Turn>
    decreases |events|
  {
    if events == [] || events[0].action.Exit? then history
    else Replay(NextHistory(history, events[0].action, events[0].world), events[1..])
  }

  /** What is printed for the events, up to and including the first exit
      word. */
  function Transcript(history: seq<Turn>, events: seq<Event>): seq<Output>
    decreases |events|
  {
    if events == [] then []
    else if events[0].action.Exit? then [Goodbye]
    else
      [Respond(history, events[0].action, events[0].world)]
      + Transcript(NextHistory(history, events[0].action, events[0].world), events[1..])
  }

  /** The texts of the plain-chat lines before the first exit word. */
  function ChatTexts(events: seq<Event>): seq<string> {
    if events == [] || events[0].action.Exit? then []
    else if events[0].action.Chat? then [events[0].action.text] + ChatTexts(events[1..])
    else ChatTexts(events[1..])
  }

  /** `chat_history` and the loop that reads and handles lines. */
  class ChatSession {
    var history: seq<Turn>

    ghost predicate Valid()
      reads this
    {
      Alternating(history)
    }

    constructor ()
      ensures Valid() && history == []
    {
      history := [];
    }

    /** Reads one line: runs the loop's tests on it and handles the action
        they select. */
    method Step(line: string, w: World) returns (out: Output)
      requires Valid()
      modifies this
      ensures Valid()
      ensures out == Respond(old(history), Classify(line), w)
      ensures history == NextHistory(old(history), Classify(line), w)
    {
      var action := Classify(line);
      out := Handle(action, w);
    }

    /** Handles the action a line selected: plain chat records the user's
        turn and the reply in the history; everything else leaves it alone. */
    method Handle(action: Action, w: World) returns (out: Output)
      requires Valid()
      modifies this
      ensures Valid()
      ensures out == Respond(old(history), action, w)
      ensures history == NextHistory(old(history), action, w)
      ensures action.Chat? ==>
                history == old(history) + [Turn(User, action.text), Turn(Assistant, out.reply.text)]
      ensures !action.Chat? ==> history == old(history)
    {
      match action {
        case Exit =>
          out := Goodbye;
        case Exec(command) =>
          out := Say(ExecReply(Execute(command, w.answer, w.shell(command))));
        case Read(path) =>
          out := Say(ReadReply(ReadFile(path, w.readFs(path))));
        case Write(path) =>
          var collected := CollectContent(w.typed);
          match collected {
            case Aborted =>
              out := Say(WriteCancelled);
            case Content(content) =>
              out := Say(WriteReply(WriteFile(path, w.writeFs(path, content))));
          }
        case MissingArgument(slash) =>
          out := Say(MissingReply(slash));
        case SystemInfo =>
          out := Say(SystemInfoReply);
        case Processes =>
          out := Say(ProcessesReply);
        case Generate(prompt) =>
          var messages := GenerateRequest(prompt);
          out := Say(ChatbotReply(Connect(w.service(messages))));
        case Chat(text) =>
          ExchangeAlternates(history, text, Connect(w.service(history + [Turn(User, text)])));
          history := history + [Turn(User, text)];
          var reply := Connect(w.service(history));
          history := history + [Turn(Assistant, reply)];
          out := Say(ChatbotReply(reply));
      }
    }

    /** Reads and handles lines until an exit word, or until the lines run
        out. */
    method Run(entries: seq<Entry>) returns (outs: seq<Output>)
      requires Valid()
      modifies this
      ensures Valid()
      ensures history == Replay(old(history), Events(entries))
      ensures outs == Transcript(old(history), Events(entries))
    {
      outs := [];
      var i := 0;
      while i < |entries|
        invariant 0 <= i <= |entries|
        invariant Valid()
        invariant Replay(old(history), Events(entries)) == Replay(history, Events(entries[i..]))
        invariant Transcript(old(history), Events(entries)) == outs + Transcript(history, Events(entries[i..]))
      {
        ghost var before := history;
        var out := Step(entries[i].line, entries[i].world);
        RunStep(before, entries, i, out, history);
        ghost var rest := Transcript(history, Events(entries[i + 1..]));
        AppendAssociative(outs, [out], rest);
        outs := outs + [out];
        if out.Goodbye? {
          return;
        }
        i := i + 1;
      }
    }
  }

  lemma AppendAssociative<T>(a: seq<T>, b: seq<T>, c: seq<T>)
    ensures a + (b + c) == (a + b) + c
  {
  }

  /** Handling one event: an exit word ends the run with the goodbye;
      anything else prints its reply and the run goes on from the new
      history. */
  lemma ReplayCons(history: seq<Turn>, e: Event, rest: seq<Event>)
    ensures Respond(history, e.action, e.world) == Goodbye <==> e.action.Exit?
    ensures e.action.Exit? ==> Replay(history, [e] + rest) == history && Transcript(history, [e] + rest) == [Goodbye]
    ensures !e.action.Exit? ==>
              && Replay(history, [e] + rest) == Replay(NextHistory(history, e.action, e.world), rest)
              && Transcript(history, [e] + rest)
                 == [Respond(history, e.action, e.world)] + Transcript(NextHistory(history, e.action, e.world), rest)
  {
    assert ([e] + rest)[0] == e && ([e] + rest)[1..] == rest;
  }

  /** The loop's step on the `i`-th line, in terms of the events. */
  lemma RunStep(before: seq<Turn>, entries: seq<Entry>, i: nat, out: Output, after: seq<Turn>)
    requires i < |entries|
    requires out == Respond(before, Classify(entries[i].line), entries[i].world)
    requires after == NextHistory(before, Classify(entries[i].line), entries[i].world)
    ensures out.Goodbye? ==>
              Replay(before, Events(entries[i..])) == before && Transcript(before, Events(entries[i..])) == [Goodbye]
    ensures !out.Goodbye? ==>
              && Replay(before, Events(entries[i..])) == Replay(after, Events(entries[i + 1..]))
              && Transcript(before, Events(entries[i..])) == [out] + Transcript(after, Events(entries[i + 1..]))
  {
    assert entries[i..][1..] == entries[i + 1..];
    ReplayCons(before, Event(Classify(entries[i].line), entries[i].world), Events(entries[i + 1..]));
  }

  /** Appending a user turn and an assistant turn keeps the alternation. */
  lemma ExchangeAlternates(history: seq<Turn>, text: string, reply: string)
    requires Alternating(history)
    ensures Alternating(history + [Turn(User, text), Turn(Assistant, reply)])
  {
    var h := history + [Turn(User, text), Turn(Assistant, reply)];
    forall i | 0 <= i < |h| ensures h[i].role == (if i % 2 == 0 then User else Assistant) {
      if i >= |history| {
        assert i == |history| || i == |history| + 1;
      }
    }
  }

  /** `/code` and `/cmd` neither read nor change the history: their reply
      is the same whatever came before, and the history is left as it was. */
  lemma GenerateIgnoresHistory(h1: seq<Turn>, h2: seq<Turn>, prompt: string, w: World)
    ensures Respond(h1, Generate(prompt), w) == Respond(h2, Generate(prompt), w)
    ensures NextHistory(h1, Generate(prompt), w) == h1
  {
  }

  /** A plain-chat line sends the service the whole history followed by the
      new user turn, and its reply is what the history then records. */
  lemma ChatSendsHistory(history: seq<Turn>, text: string, w: World)
    ensures var asked := history + [Turn(User, text)];
            && Respond(history, Chat(text), w) == Say(ChatbotReply(Connect(w.service(asked))))
            && NextHistory(history, Chat(text), w) == asked + [Turn(Assistant, Connect(w.service(asked)))]
  {
  }

  /** The history only grows, by two turns for each plain-chat line before
      the first exit word. */
  lemma {:induction false} ReplayGrows(history: seq<Turn>, events: seq<Event>)
    decreases |events|
    ensures |Replay(history, events)| == |history| + 2 * |ChatTexts(events)|
    ensures Replay(history, events)[..|history|] == history
  {
    if events != [] && !events[0].action.Exit? {
      var next := NextHistory(history, events[0].action, events[0].world);
      ReplayGrows(next, events[1..]);
      assert next[..|history|] == history;
      assert Replay(history, events)[..|history|] == Replay(next, events[1..])[..|next|][..|history|];
    }
  }

  /** The alternation of user and assistant turns survives any run. */
  lemma {:induction false} ReplayAlternates(history: seq<Turn>, events: seq<Event>)
    decreases |events|
    requires Alternating(history)
    ensures Alternating(Replay(history, events))
  {
    if events != [] && !events[0].action.Exit? {
      var action, w := events[0].action, events[0].world;
      if action.Chat? {
        var asked := history + [Turn(User, action.text)];
        ExchangeAlternates(history, action.text, Connect(w.service(asked)));
      }
      ReplayAlternates(NextHistory(history, action, w), events[1..]);
    }
  }

  /** The user turns added by a run are the plain-chat lines, in the order
      they were typed, each at an even offset after the old history. */
  lemma {:induction false} ReplayUserTurns(history: seq<Turn>, events: seq<Event>, k: nat)
    requires k < |ChatTexts(events)|
    ensures |history| + 2 * k < |Replay(history, events)|
    ensures Replay(history, events)[|history| + 2 * k] == Turn(User, ChatTexts(events)[k])
    decreases |events|
  {
    ReplayGrows(history, events);
    var action, w := events[0].action, events[0].world;
    var next := NextHistory(history, action, w);
    ReplayGrows(next, events[1..]);
    if action.Chat? {
      if k == 0 {
        assert Replay(history, events)[..|next|] == next;
        assert next[|history|] == Turn(User, action.text);
      } else {
        ReplayUserTurns(next, events[1..], k - 1);
      }
    } else {
      ReplayUserTurns(next, events[1..], k);
    }
  }

  /** An exit word ends the run: nothing typed after it is handled, and it
      is answered with the goodbye. */
  lemma {:induction false} ExitEndsRun(history: seq<Turn>, events: seq<Event>, k: nat)
    requires k < |events| && events[k].action.Exit?
    ensures Replay(history, events) == Replay(history, events[..k])
    ensures |Transcript(history, events)| <= k + 1
    ensures Transcript(history, events)[|Transcript(history, events)| - 1] == Goodbye
    decreases k
  {
    if k > 0 && !events[0].action.Exit? {
      assert events[1..][k - 1] == events[k];
      assert events[..k][1..] == events[1..][..k - 1];
      ExitEndsRun(NextHistory(history, events[0].action, events[0].world), events[1..], k - 1);
    }
  }

  /** Starting from an empty history, N plain-chat lines leave 2N turns,
      alternating user and assistant, the user turns being those lines. */
  lemma FromEmptyHistory(events: seq<Event>)
    ensures |Replay([], events)| == 2 * |ChatTexts(events)|
    ensures Alternating(Replay([], events))
    ensures forall k :: 0 <= k < |ChatTexts(events)| ==> Replay([], events)[2 * k] == Turn(User, ChatTexts(events)[k])
  {
    ReplayGrows([], events);
    ReplayAlternates([], events);
    forall k | 0 <= k < |ChatTexts(events)|
      ensures Replay([], events)[2 * k] == Turn(User, ChatTexts(events)[k])
    {
      ReplayUserTurns([], events, k);
    }
  }
}

# Terminal chatbot core, modelled in Dafny

The chatbot reads lines at a `You >` prompt. It strips each line and then treats it in one of three ways:
- as an exit word;
- as a slash command: `/exec`, `/read`, `/write`, `/sysinfo`, `/processes`, `/code` or `/cmd`;
- as plain chat with a remote completion service.

Plain chat sends the whole conversation so far. The conversation is kept in `chat_history` and grows by one user turn and one assistant turn per chat line.

Shell commands go through a confirmation gate. A command that contains one of a fixed list of dangerous substrings runs only if the user answers "yes" or "y". The result of a run, of a file read or write, and of a failed call to the service is always turned into a short reply string. Every exception of class `Exception` raised by the run, the file access or the service call is caught there and becomes a reply. None of these reaches the loop.

The model covers the following, one module per concern:

- `Text`: the Python string operations the program relies on, defined from scratch. These are `lower`, `strip` (Python's whitespace set), substring `in`, `startswith`, `split(" ", 1)` and the decimal rendering of an `int`.
- `Danger`: the pattern list and `is_dangerous_command`.
- `Executor`: `execute_command` as a function of three things: the command, the answer typed at the confirmation prompt, and what the run produced. It also renders every reply text.
- `Remote`: the conversation turns, and how `connect_to_gpt` turns the service's answer or exception into the reply.
- `Files`: `read_file_content` and `write_file_content` as functions of what the file system did. It also renders their replies.
- `Dispatch`: the main loop's tests on a typed line, in their order, and the `/write` content sub-loop. The sub-loop is an imperative method proved against a recursive specification.
- `Session`: `chat_history` as a class whose `Step` method handles one line and appends to the history in place, and whose `Run` method loops until an exit word. Both are proved against the functions `Respond`, `NextHistory`, `Replay` and `Transcript`. The lemmas about those functions state how the history evolves.

Everything outside the program is an input to the model:
- the confirmation answer;
- the shell;
- the file system;
- the lines typed at the `/write` prompt;
- the completion service.

For each typed line, these are collected in a `World` value. The shell, file system and service are functions of what is sent to them.

### Unreachable branches

chatbot.py has "Please provide …" branches for an empty argument after `/exec `, `/read ` and `/write ` (chatbot.py:205, :214, :234). The line is stripped at chatbot.py:192, before any prefix test. So a stripped line that starts with `/exec ` always has a non-space character after the prefix, and the three branches can never be taken.

The model keeps the branches, following the code. `Dispatch.NoMissingArgument` proves them unreachable.

## Model

| member | source | states |
|---|---|---|
| `Text.Strip` | chatbot.py:192 | the stripped line is empty exactly when every character is Python whitespace; otherwise it starts and ends with a non-space character and is the line with a run of whitespace cut from each end |
| `Text.IsSpace` | chatbot.py:192 | the characters `str.strip()` removes: space, tab through carriage return, the file, group, record and unit separators, U+0085, the no-break spaces, the Unicode spaces U+1680, U+2000-U+200A, U+205F and U+3000, and the line and paragraph separators |
| `Text.Lower` | chatbot.py:40 | `str.lower` on ASCII: each capital letter is mapped to its small letter, every other character is kept, and the length is kept |
| `Text.IsSubstring` | chatbot.py:41 | Python's substring `in`: the pattern occurs at some position of the text |
| `Text.StartsWith` | chatbot.py:199 | `str.startswith`: the text is at least as long as the prefix and begins with it |
| `Text.SubstringOfStrip` | chatbot.py:40-41 | for a pattern with no whitespace at either end, occurring in the stripped text is the same as occurring in the unstripped text |
| `Text.AfterFirstSpace` | chatbot.py:248 | the prompt is "" when the line holds no space, otherwise everything after the first space |
| `Text.NatToString` | chatbot.py:90 | the rendering of a natural number is a non-empty string of decimal digits whose value (`DigitsValue`) is the number, with no leading zero, and of one digit exactly when the number is below ten |
| `Text.IntToString` | chatbot.py:90 | the rendering of an exit code: a negative code is "-" followed by decimal digits, with no leading zero, whose value is its magnitude; any other code is decimal digits whose value is the code, with no leading zero, and 0 is "0" |
| `Text.IntToStringInjective` | chatbot.py:90 | two exit codes with the same rendering are equal |
| `Danger.PatternsTrimmed` | chatbot.py:17-35 | no dangerous pattern has whitespace at either end |
| `Danger.IsDangerous` | chatbot.py:38-41 | a command is flagged when one of the 17 patterns occurs in its lower-cased, stripped text |
| `Danger.DangerousIgnoresStrip` | chatbot.py:38-41 | a command is flagged exactly when some pattern occurs in its lower-cased text; the strip makes no difference |
| `Danger.DangerousWidened` | chatbot.py:41 | text added before or after a flagged command never unflags it |
| `Danger.PatternsContainRoots` | chatbot.py:17-35 | each of the 17 patterns contains one of 11 roots ("rm", "del", "fdisk", "mkfs", "dd", "kill", "chmod 777", "chown", "passwd", "shutdown", "reboot") |
| `Danger.DangerousIffRoot` | chatbot.py:17-41 | a command is flagged exactly when its lower-cased text contains one of those roots, so "rmdir", "sudo rm", "format", "killall" and "userdel" add nothing |
| `Danger.ShoutedShutdownIsDangerous` | chatbot.py:40-41 | "SHUTDOWN -h now" is flagged: matching ignores letter case |
| `Danger.FirmwareIsDangerous` | chatbot.py:41 | "ls firmware" is flagged, through "rm" inside a word: matching is containment, not word matching |
| `Danger.ListingIsSafe` | chatbot.py:17-41 | "ls" is not flagged |
| `Executor.Report` | chatbot.py:78-91 | the output in a success reply and the error text in a failure reply have no whitespace at either end |
| `Executor.Affirmative` | chatbot.py:70 | the answer, lower-cased and not stripped, is "yes" or "y" |
| `Executor.Execute` | chatbot.py:62-96 | a flagged command whose answer is not affirmative is cancelled without running; a confirmation prompt that raised an `Exception` gives an execution error with its message; otherwise the result is what `Report` makes of the run |
| `Executor.ReplyText` | chatbot.py:71-96 | the reply printed for each result, with its mark (✅, ❌ or ⏱️), its words and its payload |
| `Executor.ReplyTextLead` | chatbot.py:71-96 | a reply starts with ✅ exactly for the two successes, with ⏱️ exactly for a timeout, and has ":" at a fixed offset exactly when it carries output |
| `Executor.ReplyTextMarks` | chatbot.py:71-96 | among replies starting with ❌, the words at fixed offsets tell an execution error, a cancellation and a failure with an error text apart |
| `Executor.ExecuteGate` | chatbot.py:66-96 | the result is "cancelled" exactly when the command is flagged and the typed answer, lower-cased, is neither "yes" nor "y"; an unflagged command is never cancelled and its result does not depend on the answer; a flagged command confirmed with "yes" or "y" is run as an unflagged one is, and a confirmation prompt that raised gives the execution error with its message |
| `Executor.CancelledIgnoresRun` | chatbot.py:70-71 | a cancelled command's result is the same whatever the run would have produced |
| `Executor.ReportCases` | chatbot.py:74-96 | exit code 0 gives the stripped stdout, or "no output" when that is empty; another code gives the stripped stderr, or the reply naming the code when that is empty; a timeout and any other exception each get their own reply; none of these is "cancelled" |
| `Executor.ReplyTextInjective` | chatbot.py:71-96 | different results are printed as different texts, down to the output, the error, the exit code and the exception message |
| `Executor.AffirmativeExamples` | chatbot.py:70 | "YES" and "Y" confirm; " yes" and "yes " do not, since the answer is not stripped |
| `Remote.QuotaBeforeCredentials` | chatbot.py:52-57 | an error that passes both the quota test and the credentials test is reported as a quota or rate-limit fault |
| `Remote.ClassifyFault` | chatbot.py:52-59 | an error is a quota or rate-limit fault when it contains "insufficient_quota" or its lower-cased text contains "rate_limit"; otherwise a credentials fault when it contains "401" or its lower-cased text contains "unauthorized"; otherwise unclassified |
| `Remote.FaultText` | chatbot.py:53-59 | the reply for each kind of fault; an unclassified one carries the error text |
| `Remote.Connect` | chatbot.py:44-59 | a completed call gives the service's content; a raised one gives the reply for its classified fault |
| `Remote.SubstringWithoutLetters` | chatbot.py:54 | a text without letters, like "401", occurs in an error exactly when it occurs in the lower-cased error |
| `Remote.CaseMattersOnlyForQuotaToken` | chatbot.py:52-59 | two errors that differ only in letter case, and do not contain "insufficient_quota", are classified alike |
| `Remote.CapitalQuotaTokenUnclassified` | chatbot.py:52-59 | "INSUFFICIENT_QUOTA" in capitals is reported as an unclassified error carrying that text |
| `Remote.RateLimitWithStatus401` | chatbot.py:52-54 | "401 Rate_Limit" is a quota or rate-limit fault |
| `Remote.FaultTextInjective` | chatbot.py:53-59 | the three fault replies differ, and an unclassified fault's reply gives back its error text |
| `Files.ReadCases` | chatbot.py:99-110 | reading gives the content when the file was read, "not found" exactly on FileNotFoundError, "permission denied" exactly on PermissionError, and otherwise the generic error with the exception's message |
| `Files.ReadFile` | chatbot.py:99-110 | a read gives the file's content, or the error matching the exception: not found, permission denied, or another exception with its message |
| `Files.WriteCases` | chatbot.py:113-122 | writing reports success exactly when the write completed and "permission denied" exactly on PermissionError; any other exception, a missing file included, becomes the generic error with its message |
| `Files.WriteFile` | chatbot.py:113-122 | a write gives success, permission denied, or another exception with its message |
| `Files.ReadReplyText` | chatbot.py:104-110 | the reply printed for each read result, naming the path, or giving the exception's message |
| `Files.WriteReplyText` | chatbot.py:118-122 | the reply printed for each write result, naming the path, or giving the exception's message |
| `Files.ReadReplyDistinct` | chatbot.py:104-110 | a content reply is never mistaken for an error reply, and two error replies with the same text come from the same path or message |
| `Files.WriteReplyInjective` | chatbot.py:118-122 | different write results are printed as different texts |
| `Dispatch.SlashIsNotExit` | chatbot.py:194 | a stripped line that starts with "/" is never an exit word |
| `Dispatch.Classify` | chatbot.py:192-260 | the line is stripped, then tested in the program's order: exit word (lower-cased), "/exec ", "/read ", "/write ", "/sysinfo", "/processes", "/code" or "/cmd", and otherwise plain chat |
| `Dispatch.ChatWhenNoTestMatches` | chatbot.py:192-260 | a line whose stripped text passes none of the tests before the last branch is plain chat with that text |
| `Dispatch.UnknownSlashIsChat` | chatbot.py:199-260 | a trimmed line of "/" and a letter that begins no command is plain chat |
| `Dispatch.NoMissingArgument` | chatbot.py:199-234 | no line reaches a "Please provide …" branch |
| `Dispatch.ExecArgument` | chatbot.py:199-202 | a stripped line starting with "/exec " runs exactly the text after that prefix |
| `Dispatch.ReadArgument` | chatbot.py:208-211 | a stripped line starting with "/read " reads exactly the path after that prefix |
| `Dispatch.WriteArgument` | chatbot.py:217-219 | a stripped line starting with "/write " writes to exactly the path after that prefix |
| `Dispatch.ChatIsStrippedLine` | chatbot.py:192-261 | a chat line's text is the stripped line, and that line failed all eight earlier tests: it is not an exit word, starts with none of "/exec ", "/read ", "/write ", "/code" and "/cmd", and is neither "/sysinfo" nor "/processes"; with `ChatWhenNoTestMatches` this makes an if-and-only-if |
| `Dispatch.ExitIgnoresCaseAndSpaces` | chatbot.py:192-196 | "  QuIt " is an exit word |
| `Dispatch.SystemInfoIsCaseSensitive` | chatbot.py:237 | "/SYSINFO" is plain chat |
| `Dispatch.CodePrefixOnly` | chatbot.py:247-248 | "/codex" asks for code, with an empty prompt |
| `Dispatch.BareExecIsChat` | chatbot.py:199 | "/exec" without a following space is plain chat |
| `Dispatch.CollectAfterLines` | chatbot.py:221-232 | the content collected after some lines is those lines, each followed by a newline, in front of what the rest collects; an interrupt anywhere later aborts the whole write |
| `Dispatch.Collect` | chatbot.py:221-229 | the content is each typed line followed by a newline, in order, up to the end of input; an interrupt abandons the write |
| `Dispatch.CollectUntilEnd` | chatbot.py:223-229 | lines followed by the end of input collect to those lines, each followed by a newline, and the rest is never read |
| `Dispatch.CollectInterrupted` | chatbot.py:221-232 | an interrupt before the end of input abandons the write, whatever was typed before it |
| `Dispatch.CollectContent` | chatbot.py:221-229 | the imperative content loop returns what the recursive specification `Collect` collects |
| `Session.ChatSession.constructor` | chatbot.py:189 | the history starts empty |
| `Session.GenerateRequest` | chatbot.py:249-255 | a `/code` or `/cmd` request is the fixed code-only system instruction followed by the prompt as a user turn |
| `Session.Respond` | chatbot.py:194-263 | what a line prints: the goodbye, the exec, file or fault reply, the system or process listing, the answer to the code request, or the answer to the history with the new user turn; a `/write` whose collection was interrupted prints the cancellation, and the unreachable missing-argument action its reply |
| `Session.NextHistory` | chatbot.py:260-264 | only plain chat changes the history, by appending the user's turn and then the reply |
| `Session.ChatSession.Step` | chatbot.py:191-264 | handling one line prints `Respond` for the action the line selects and leaves the history at `NextHistory`; the alternation of turns is kept |
| `Session.ChatSession.Handle` | chatbot.py:194-264 | plain chat appends the user's turn and then the reply; every other action leaves the history untouched |
| `Session.ChatSession.Run` | chatbot.py:191-196 | the loop ends with the history `Replay` gives and prints what `Transcript` gives, stopping at the first exit word |
| `Session.ExchangeAlternates` | chatbot.py:261-264 | appending a user turn and then an assistant turn keeps user and assistant turns alternating |
| `Session.GenerateIgnoresHistory` | chatbot.py:247-257 | the reply to `/code` or `/cmd` does not depend on the history, and the history is unchanged |
| `Session.ChatSendsHistory` | chatbot.py:260-264 | plain chat sends the whole history followed by the new user turn, and records the reply it prints |
| `Session.ReplayGrows` | chatbot.py:189-264 | the history only grows: the old history stays a prefix and two turns are added per chat line before the first exit word |
| `Session.ReplayAlternates` | chatbot.py:261-264 | any run keeps user and assistant turns alternating |
| `Session.ReplayUserTurns` | chatbot.py:261 | the user turns a run adds are the chat lines, in the order typed, at even offsets after the old history |
| `Session.ExitEndsRun` | chatbot.py:194-196 | nothing typed after an exit word is handled, and the last thing printed is the goodbye |
| `Session.FromEmptyHistory` | chatbot.py:189-264 | from an empty history, N chat lines leave 2N alternating turns whose user turns are those lines |

## Left out

- Text.Lower: lower-cases ASCII letters only. Python's `str.lower` also maps other characters, e.g. KELVIN SIGN (U+212A) to "k". So a command containing KELVIN SIGN followed by "ill" is flagged by the program but not by `Danger.IsDangerous`. The exit words, "yes"/"y", "rate_limit" and "unauthorized" contain no letter affected by this.
- `get_system_info` and `list_processes` (chatbot.py:125-174): they read the operating system through `platform` and `psutil`. The model only records that the reply is shown (`SystemInfoReply`, `ProcessesReply`).
- The completion service: the client, its API key loaded from `.env`, and the model name are not modelled. The call is `World.service`, a function of the turns sent. A response whose content is None is not modelled.
- Running the command: the shell run, with its 30-second timeout, is `World.shell`. Its three possible outcomes (completed, timed out, raised) are the input.
- File access: opening, UTF-8 decoding and writing are `World.readFs` and `World.writeFs`. Their result or exception is the input.
- Printing: the banner, the `System >` and `Chatbot >` prefixes, the blank lines, and the texts of the "Please provide …" and "Write operation cancelled" messages. Replies are values. The texts for the exec, file and service replies are rendered by `ReplyText`, `ReadReplyText`, `WriteReplyText` and `FaultText`.
- Input: each typed line comes with its own confirmation answer and its own `/write` lines. The program reads all of them from one standard-input stream.
- End of input and keyboard interrupts:
  - At the top-level prompt they end the program with an uncaught exception; in the model, `Run` just stops when the lines run out.
  - At the confirmation prompt, only exceptions of class `Exception` are modelled, as `PromptFault`. These are caught and reported as an execution error.
  - A keyboard interrupt while the file is being written after collection is not modelled; only an interrupt during collection is.
  - A keyboard interrupt during the shell run (chatbot.py:74-76) is not an `Exception`, so the program ends there. The model has no such outcome of `World.shell`.
  - A keyboard interrupt during the completion call (chatbot.py:46-49) ends the program as well. The model has no such outcome of `World.service`.

/**
 The shell executor: the confirmation gate for dangerous commands, and
 the mapping from what the shell run produced to the reply shown to the
 user. The prompt's answer and the run itself are inputs.
 */
module Executor {
  import opened Text
  import opened Danger

  /** What running the command through the shell, with a 30 second
      timeout, produced. */
  datatype RunOutcome =
    | Completed(code: int, stdout: string, stderr: string)
    | TimedOut
    | Fault(message: string)  // any other exception, as `str(e)`

  /** What the confirmation prompt returned: the line typed, or the
      message of the exception it raised. */
  datatype Answer = Typed(text: string) | PromptFault(message: string)

  /** The outcomes of `execute_command`, one per reply it can give. */
  datatype ExecResult =
    | Cancelled
    | Succeeded(output: string)
    | SucceededNoOutput
    | Failed(error: string)
    | FailedWithCode(code: int)
    | Timeout
    | Errored(message: string)

  /** The answer confirms the run: lower-cased, but not stripped, it is
      "yes" or "y". */
  predicate Affirmative(answer: string) {
    Lower(answer) == "yes" || Lower(answer) == "y"
  }

  /** The reply for a command that was allowed to run. */
  function Report(run: RunOutcome): (r: ExecResult)
    ensures r.Succeeded? ==> Trimmed(r.output)
    ensures r.Failed? ==> Trimmed(r.error)
  {
    match run
    case Completed(code, out, err) =>
      if code == 0 then
        var output := Strip(out);
        if output != [] then Succeeded(output) else SucceededNoOutput
      else
        var error := Strip(err);
        if error != [] then Failed(error) else FailedWithCode(code)
    case TimedOut => Timeout
    case Fault(message) => Errored(message)
  }

  /** `execute_command`: the gate, then the run. */
  function Execute(command: string, answer: Answer, run: RunOutcome): ExecResult {
    if IsDangerous(command) then
      match answer
      case PromptFault(message) => Errored(message)
      case Typed(text) => if Affirmative(text) then Report(run) else Cancelled
    else
      Report(run)
  }

  /** The reply text, exactly as the program prints it. Each literal is
      written in short pieces so that the verifier can index into it. */
  function ReplyText(r: ExecResult): string {
    match r
    case Cancelled => "\U{274C} Command cancelled " + "for safety."
    case Succeeded(output) => "\U{2705} Command executed " + "successfully:\n" + output
    case SucceededNoOutput => "\U{2705} Command executed " + "successfully (no output)"
    case Failed(error) => "\U{274C} Command failed:\n" + error
    case FailedWithCode(code) => "\U{274C} Command failed " + "with exit code " + IntToString(code)
    case Timeout => "\U{23F1}\U{FE0F} Command timed " + "out (30s limit)"
    case Errored(message) => "\U{274C} Error executing " + "command: " + message
  }

  /** The gate: a run is cancelled exactly when the command is dangerous
      and the answer typed is not an affirmative one. A confirmed dangerous
      command is run, and a prompt that raised gives the execution error. A safe command is
      never cancelled and its result does not depend on any answer, so it
      is never asked about. */
  lemma ExecuteGate(command: string, answer: Answer, run: RunOutcome)
    ensures Execute(command, answer, run) == Cancelled
            <==> IsDangerous(command) && answer.Typed? && !Affirmative(answer.text)
    ensures !IsDangerous(command) ==>
              forall other: Answer :: Execute(command, other, run) == Report(run) != Cancelled
    ensures IsDangerous(command) && answer.Typed? && Affirmative(answer.text) ==>
              Execute(command, answer, run) == Report(run)
    ensures IsDangerous(command) && answer.PromptFault? ==>
              Execute(command, answer, run) == Errored(answer.message)
  {
  }

  /** A cancelled command is not run: the outcome is the same whatever the
      run would have produced. */
  lemma CancelledIgnoresRun(command: string, answer: Answer, run: RunOutcome, other: RunOutcome)
    requires Execute(command, answer, run) == Cancelled
    ensures Execute(command, answer, other) == Cancelled
  {
  }

  /** How a run becomes a reply: exit code 0 gives the stripped output or
      the "no output" reply; another code gives the stripped error output
      or the reply that names the code; a timeout and any other fault each
      have their own reply, never a success or a failure. */
  lemma ReportCases(run: RunOutcome)
    ensures Report(run).Succeeded? <==> run.Completed? && run.code == 0 && Strip(run.stdout) != []
    ensures Report(run).Succeeded? ==> Report(run).output == Strip(run.stdout)
    ensures Report(run) == SucceededNoOutput <==> run.Completed? && run.code == 0 && Strip(run.stdout) == []
    ensures Report(run).Failed? <==> run.Completed? && run.code != 0 && Strip(run.stderr) != []
    ensures Report(run).Failed? ==> Report(run).error == Strip(run.stderr)
    ensures Report(run).FailedWithCode? <==> run.Completed? && run.code != 0 && Strip(run.stderr) == []
    ensures Report(run).FailedWithCode? ==> Report(run).code == run.code != 0
    ensures Report(run) == Timeout <==> run.TimedOut?
    ensures Report(run).Errored? <==> run.Fault?
    ensures Report(run) != Cancelled
  {
  }

  /** The first character of a reply tells success, timeout and the
      other replies apart. */
  lemma ReplyTextLead(r: ExecResult)
    ensures |ReplyText(r)| >= 18
    ensures r.Succeeded? || r.SucceededNoOutput? <==> ReplyText(r)[0] == '\U{2705}'
    ensures r.Timeout? <==> ReplyText(r)[0] == '\U{23F1}'
    ensures r.Succeeded? <==> ReplyText(r)[0] == '\U{2705}' && |ReplyText(r)| > 31 && ReplyText(r)[31] == ':'
  {
    var t := ReplyText(r);
    match r
    case Succeeded(_) =>
      assert t[31] == ':';
    case SucceededNoOutput =>
      assert t[31] == ' ';
    case FailedWithCode(code) =>
      assert t == "\U{274C} Command failed " + "with exit code " + IntToString(code);
    case _ =>
  }

  /** Among the replies that start with a cross, three characters tell
      them apart. */
  lemma ReplyTextMarks(r: ExecResult)
    requires |ReplyText(r)| >= 18 && ReplyText(r)[0] == '\U{274C}'
    ensures r.Errored? <==> ReplyText(r)[2] == 'E'
    ensures r.Cancelled? <==> ReplyText(r)[10] == 'c'
    ensures r.Failed? <==> ReplyText(r)[16] == ':'
  {
    var t := ReplyText(r);
    match r
    case Cancelled =>
      assert t[2] == 'C' && t[10] == 'c' && t[16] == 'l';
    case Failed(_) =>
      assert t[2] == 'C' && t[10] == 'f' && t[16] == ':';
    case FailedWithCode(code) =>
      assert t == "\U{274C} Command failed " + "with exit code " + IntToString(code);
      assert t[2] == 'C' && t[10] == 'f' && t[16] == ' ';
    case Errored(_) =>
      assert t[2] == 'E';
    case _ =>
  }

  /** Different outcomes are printed differently, so the user can always
      tell them apart, down to the output, the error and the exit code. */
  lemma ReplyTextInjective(a: ExecResult, b: ExecResult)
    requires ReplyText(a) == ReplyText(b)
    ensures a == b
  {
    var t := ReplyText(a);
    ReplyTextLead(a);
    ReplyTextLead(b);
    if t[0] == '\U{274C}' {
      ReplyTextMarks(a);
      ReplyTextMarks(b);
    }
    if a.Succeeded? {
      assert a.output == t[33..] == b.output;
    } else if a.Failed? {
      assert a.error == t[18..] == b.error;
    } else if a.Errored? {
      assert a.message == t[27..] == b.message;
    } else if a.FailedWithCode? {
      assert b.FailedWithCode?;
      assert IntToString(a.code) == t[32..] == IntToString(b.code);
      IntToStringInjective(a.code, b.code);
    }
  }

  /** Confirmation is case-insensitive but takes the answer as typed:
      "YES" and "Y" confirm, " yes" and "yes " do not. */
  lemma AffirmativeExamples()
    ensures Affirmative("YES") && Affirmative("Y")
    ensures !Affirmative(" yes") && !Affirmative("yes ")
  {
    assert Lower("YES") == "yes" by {
      assert Lower("YES")[0] == 'y' && Lower("YES")[1] == 'e' && Lower("YES")[2] == 's';
    }
    assert Lower("Y") == "y" by {
      assert Lower("Y")[0] == 'y';
    }
    assert |Lower(" yes")| == 4;
    assert |Lower("yes ")| == 4;
  }
}

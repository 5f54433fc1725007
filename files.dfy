/**
 The file accessor: how the outcome of opening, reading or writing a file
 becomes the reply shown to the user. The file system's answer is an input.
 */
module Files {

  /** The exceptions the program tells apart, each with its `str(e)`. */
  datatype IoError =
    | NotFound(message: string)          // FileNotFoundError
    | PermissionDenied(message: string)  // PermissionError
    | OtherError(message: string)        // any other exception

  /** What opening and reading the file as UTF-8 produced. */
  datatype ReadOutcome = Contents(text: string) | ReadRaised(error: IoError)

  /** What opening the file for writing and writing the content produced. */
  datatype WriteOutcome = WroteAll | WriteRaised(error: IoError)

  datatype ReadResult =
    | FileContent(path: string, content: string)
    | FileNotFound(path: string)
    | ReadDenied(path: string)
    | ReadError(message: string)

  datatype WriteResult =
    | Written(path: string)
    | WriteDenied(path: string)
    | WriteError(message: string)

  /** `read_file_content` */
  function ReadFile(path: string, outcome: ReadOutcome): ReadResult {
    match outcome
    case Contents(text) => FileContent(path, text)
    case ReadRaised(NotFound(_)) => FileNotFound(path)
    case ReadRaised(PermissionDenied(_)) => ReadDenied(path)
    case ReadRaised(OtherError(message)) => ReadError(message)
  }

  /** `write_file_content`: there is no handler of its own for a missing
      file, so that falls to the generic one. */
  function WriteFile(path: string, outcome: WriteOutcome): WriteResult {
    match outcome
    case WroteAll => Written(path)
    case WriteRaised(PermissionDenied(_)) => WriteDenied(path)
    case WriteRaised(error) => WriteError(error.message)
  }

  /** The reply for each read result. The literals are written in short
      pieces so that the verifier can index into them. */
  function ReadReplyText(r: ReadResult): string {
    match r
    case FileContent(path, content) => "\U{1F4C4} File content of '" + path + "':\n" + content
    case FileNotFound(path) => "\U{274C} File '" + path + "' not found"
    case ReadDenied(path) => "\U{274C} Permission denied" + " to read '" + path + "'"
    case ReadError(message) => "\U{274C} Error reading file: " + message
  }

  /** The reply for each write result, its literals split the same way. */
  function WriteReplyText(r: WriteResult): string {
    match r
    case Written(path) => "\U{2705} Content written to '" + path + "'"
    case WriteDenied(path) => "\U{274C} Permission denied" + " to write to '" + path + "'"
    case WriteError(message) => "\U{274C} Error writing file: " + message
  }

  /** Reading has four distinct results: the content, not found,
      permission denied, and any other error with its message. */
  lemma ReadCases(path: string, outcome: ReadOutcome)
    ensures ReadFile(path, outcome).FileContent? <==> outcome.Contents?
    ensures outcome.Contents? ==> ReadFile(path, outcome) == FileContent(path, outcome.text)
    ensures ReadFile(path, outcome).FileNotFound? <==> outcome.ReadRaised? && outcome.error.NotFound?
    ensures ReadFile(path, outcome).ReadDenied? <==> outcome.ReadRaised? && outcome.error.PermissionDenied?
    ensures ReadFile(path, outcome).ReadError? <==> outcome.ReadRaised? && outcome.error.OtherError?
    ensures ReadFile(path, outcome).ReadError? ==> ReadFile(path, outcome).message == outcome.error.message
    ensures !ReadFile(path, outcome).FileContent? ==> ReadFile(path, outcome) == ReadFile(path, ReadRaised(outcome.error))
  {
  }

  /** Writing has only three results: a missing file or directory is not
      reported as such but as a generic error carrying its message. */
  lemma WriteCases(path: string, outcome: WriteOutcome)
    ensures WriteFile(path, outcome).Written? <==> outcome.WroteAll?
    ensures WriteFile(path, outcome).WriteDenied? <==> outcome.WriteRaised? && outcome.error.PermissionDenied?
    ensures WriteFile(path, outcome).WriteError? <==> outcome.WriteRaised? && !outcome.error.PermissionDenied?
    ensures WriteFile(path, outcome).WriteError? ==> WriteFile(path, outcome).message == outcome.error.message
    ensures outcome.WriteRaised? && outcome.error.NotFound? ==>
              WriteFile(path, outcome) == WriteError(outcome.error.message)
  {
  }

  /** The four read replies can be told apart by their text, and an error
      reply gives back the path or the message it was made from. */
  lemma ReadReplyDistinct(a: ReadResult, b: ReadResult)
    requires ReadReplyText(a) == ReadReplyText(b)
    ensures a.FileContent? <==> b.FileContent?
    ensures !a.FileContent? ==> a == b
  {
    var t := ReadReplyText(a);
    forall r: ReadResult ensures
      && (r.FileContent? <==> ReadReplyText(r)[0] == '\U{1F4C4}')
      && (r.FileNotFound? <==> ReadReplyText(r)[0] == '\U{274C}' && ReadReplyText(r)[2] == 'F')
      && (r.ReadDenied? <==> ReadReplyText(r)[2] == 'P')
      && (r.ReadError? <==> ReadReplyText(r)[2] == 'E')
    {
    }
    if a.FileNotFound? {
      assert a.path == t[8..|t| - 11] == b.path;
    } else if a.ReadDenied? {
      assert a.path == t[29..|t| - 1] == b.path;
    } else if a.ReadError? {
      assert a.message == t[22..] == b.message;
    }
  }

  /** Different write results are printed differently. */
  lemma WriteReplyInjective(a: WriteResult, b: WriteResult)
    requires WriteReplyText(a) == WriteReplyText(b)
    ensures a == b
  {
    var t := WriteReplyText(a);
    forall r: WriteResult ensures
      && (r.Written? <==> WriteReplyText(r)[0] == '\U{2705}')
      && (r.WriteDenied? <==> WriteReplyText(r)[2] == 'P')
      && (r.WriteError? <==> WriteReplyText(r)[2] == 'E')
    {
    }
    if a.Written? {
      assert a.path == t[22..|t| - 1] == b.path;
    } else if a.WriteDenied? {
      assert a.path == t[33..|t| - 1] == b.path;
    } else {
      assert a.message == t[22..] == b.message;
    }
  }
}

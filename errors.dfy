/**
 * The closed error taxonomy of the tool (src/error.rs), its rendering as a
 * message, its mapping to process exit codes, and the way the entry point
 * (src/main.rs) turns a command's outcome into the exit status.
 */
module Errors {

  /** Every failure a command can report. I/O errors carry their rendered text. */
  datatype Error =
    | DeviceNotFound
    | FileNotFound(msg: string)
    | PermissionDenied
    | StorageFull
    | TransferFailed(msg: string)
    | Mtp(msg: string)
    | Io(msg: string)
    | InvalidPath(msg: string)

  /** The crate's `Result<T>`: a value, or an `Error`; usable with `:-` like Rust's `?`. */
  datatype Result<+T> = Ok(value: T) | Err(error: Error) {
    predicate IsFailure() {
      Err?
    }

    function PropagateFailure<U>(): Result<U>
      requires Err?
    {
      Err(error)
    }

    function Extract(): T
      requires Ok?
    {
      value
    }
  }

  /** The process exit status of a successful command. */
  const Success: nat := 0

  /** The exit code a failing command reports (`Error::exit_code`). */
  function ExitCode(e: Error): (r: nat)
    ensures 1 <= r <= 6
    ensures r == 2 <==> e.DeviceNotFound?
    ensures r == 3 <==> e.FileNotFound?
    ensures r == 4 <==> e.PermissionDenied?
    ensures r == 5 <==> e.StorageFull?
    ensures r == 6 <==> e.TransferFailed?
    ensures r == 1 <==> (e.Mtp? || e.Io? || e.InvalidPath?)
  {
    match e
    case DeviceNotFound => 2
    case FileNotFound(_) => 3
    case PermissionDenied => 4
    case StorageFull => 5
    case TransferFailed(_) => 6
    case Mtp(_) => 1
    case Io(_) => 1
    case InvalidPath(_) => 1
  }

  /** Whether two errors are the same variant, whatever their payloads. */
  predicate SameVariant(e1: Error, e2: Error) {
    match (e1, e2)
    case (DeviceNotFound, DeviceNotFound) => true
    case (FileNotFound(_), FileNotFound(_)) => true
    case (PermissionDenied, PermissionDenied) => true
    case (StorageFull, StorageFull) => true
    case (TransferFailed(_), TransferFailed(_)) => true
    case (Mtp(_), Mtp(_)) => true
    case (Io(_), Io(_)) => true
    case (InvalidPath(_), InvalidPath(_)) => true
    case _ => false
  }

  /** The exit code depends on the variant only, never on the message it carries. */
  lemma ExitCodeIgnoresPayload(e1: Error, e2: Error)
    requires SameVariant(e1, e2)
    ensures ExitCode(e1) == ExitCode(e2)
  {
  }

  /** The exit status of the whole process for a command's outcome (`main`). */
  function ProcessExit<T>(outcome: Result<T>): (r: nat)
    ensures r == Success <==> outcome.Ok?
    ensures outcome.Err? ==> r == ExitCode(outcome.error)
  {
    match outcome
    case Ok(_) => Success
    case Err(e) => ExitCode(e)
  }

  /** The text an error displays as (its `thiserror` message). */
  function Describe(e: Error): (r: string)
    ensures |r| > 0
    ensures !(e.DeviceNotFound? || e.PermissionDenied? || e.StorageFull?) ==>
      |e.msg| < |r| && r[|r| - |e.msg|..] == e.msg
  {
    match e
    case DeviceNotFound => "No Kindle device found"
    case FileNotFound(m) => "File not found: " + m
    case PermissionDenied => "Permission denied"
    case StorageFull => "Storage full"
    case TransferFailed(m) => "Transfer failed: " + m
    case Mtp(m) => "MTP error: " + m
    case Io(m) => "IO error: " + m
    case InvalidPath(m) => "Path error: " + m
  }

  /** Text that starts with the same prefix and is equal goes on equally after it. */
  lemma SameAfterPrefix(p: string, a: string, b: string)
    requires p + a == p + b
    ensures a == b
  {
    assert a == (p + a)[|p|..];
    assert b == (p + b)[|p|..];
  }

  /** The first two characters of a message tell the variant apart. */
  function MessageHead(e: Error): (r: string)
  {
    match e
    case DeviceNotFound => "No"
    case FileNotFound(_) => "Fi"
    case PermissionDenied => "Pe"
    case StorageFull => "St"
    case TransferFailed(_) => "Tr"
    case Mtp(_) => "MT"
    case Io(_) => "IO"
    case InvalidPath(_) => "Pa"
  }

  lemma DescribeStartsWithMessageHead(e: Error)
    ensures |Describe(e)| >= 2 && Describe(e)[..2] == MessageHead(e)
  {
  }

  lemma DescribeInjective(e1: Error, e2: Error)
    requires Describe(e1) == Describe(e2)
    ensures e1 == e2
  {
    DescribeStartsWithMessageHead(e1);
    DescribeStartsWithMessageHead(e2);
    assert MessageHead(e1) == MessageHead(e2);
    match e1
    case FileNotFound(m) => SameAfterPrefix("File not found: ", m, e2.msg);
    case TransferFailed(m) => SameAfterPrefix("Transfer failed: ", m, e2.msg);
    case Mtp(m) => SameAfterPrefix("MTP error: ", m, e2.msg);
    case Io(m) => SameAfterPrefix("IO error: ", m, e2.msg);
    case InvalidPath(m) => SameAfterPrefix("Path error: ", m, e2.msg);
    case _ =>
  }
}

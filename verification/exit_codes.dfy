/**
 The process exit codes. Each case automation may want to tell apart has a
 code of its own.
 */
module ExitCodes {
  import opened Wrappers

  datatype ExitCode =
    | Success           // everything worked and every mutant was caught
    | Usage             // wrong arguments; also what argh itself exits with
    | FoundProblems     // some mutant was not caught by the tests
    | Timeout           // some test run timed out
    | CleanTestsFailed  // the tests already fail on a copy of the clean tree

  /** The integer the process exits with. */
  function Code(e: ExitCode): (c: int)
    ensures 0 <= c <= 4
    ensures c == 0 <==> e == Success
    ensures c == 1 <==> e == Usage
    ensures c == 2 <==> e == FoundProblems
    ensures c == 3 <==> e == Timeout
    ensures c == 4 <==> e == CleanTestsFailed
  {
    match e
    case Success => 0
    case Usage => 1
    case FoundProblems => 2
    case Timeout => 3
    case CleanTestsFailed => 4
  }

  /** The exit case an integer stands for, if any. */
  function FromCode(c: int): (e: Option<ExitCode>)
    ensures e.Some? ==> Code(e.value) == c
    ensures e.None? ==> forall x :: Code(x) != c
  {
    if c == 0 then Some(Success)
    else if c == 1 then Some(Usage)
    else if c == 2 then Some(FoundProblems)
    else if c == 3 then Some(Timeout)
    else if c == 4 then Some(CleanTestsFailed)
    else None
  }

  /** Decoding a code gives back the exit case, so no two cases share a code. */
  lemma CodeRoundTrip(e: ExitCode)
    ensures FromCode(Code(e)) == Some(e)
  {
    match e
    case Success =>
    case Usage =>
    case FoundProblems =>
    case Timeout =>
    case CleanTestsFailed =>
  }

  /** The codes are pairwise distinct. */
  lemma CodesDistinct(a: ExitCode, b: ExitCode)
    ensures Code(a) == Code(b) ==> a == b
  {
    CodeRoundTrip(a);
    CodeRoundTrip(b);
  }
}

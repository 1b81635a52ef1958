/** src/ExitStatus.hxx and the wait-status tests of the two exec relays. A status is what the
    exit listener reports: negative if waiting failed, else the word of waitpid(2). */
module ExitStatus {
  /** WIFSIGNALED, for a non-negative status word. */
  predicate IsSignaled(status: int) {
    0 < status % 128 < 127
  }

  /** WEXITSTATUS. */
  function ExitCode(status: int): nat {
    (status / 256) % 256
  }

  /** A success: the child could be waited for, was not killed, and exited with 0. */
  predicate IsSuccess(status: int) {
    status >= 0 && !IsSignaled(status) && ExitCode(status) == 0
  }

  const EX_USAGE := 64
  const EX_OSFILE := 72
  const EX_NOPERM := 77
  const EX_CONFIG := 78

  predicate IsPermanent(code: int) {
    code == EX_USAGE || code == EX_OSFILE || code == EX_NOPERM || code == EX_CONFIG
  }

  function ExitStatusToQmqpResponse(code: int): string {
    if IsPermanent(code) then "Dinternal server error" else "Zinternal server error"
  }

  /** The fixed response for a status. */
  function StatusResponse(status: int): string {
    if status < 0 || IsSignaled(status) then "Zinternal server error"
    else if ExitCode(status) != 0 then ExitStatusToQmqpResponse(ExitCode(status))
    else "K"
  }

  // ------------------------------------------------------------ what the words mean

  /** How a child can end, as far as the parent learns of it. */
  datatype Ending = Exited(code: nat) | Killed(signal: nat, coreDumped: bool) | WaitFailed(errno: nat)

  predicate Possible(e: Ending) {
    match e
    case Exited(code) => code < 256
    case Killed(signal, _) => 1 <= signal <= 126
    case WaitFailed(errno) => errno > 0
  }

  /** The status word for an ending: the encoding of waitpid(2), or a negated error number. */
  function Word(e: Ending): int {
    match e
    case Exited(code) => 256 * code
    case Killed(signal, coreDumped) => signal + (if coreDumped then 128 else 0)
    case WaitFailed(errno) => 0 - errno
  }

  /** What the client is to be told: only exit code 0 is a success, and only four others are
      permanent failures. */
  function Verdict(e: Ending): string {
    match e
    case Exited(code) =>
      if code == 0 then "K"
      else if code in {64, 72, 77, 78} then "Dinternal server error"
      else "Zinternal server error"
    case _ => "Zinternal server error"
  }

  /** Every way to end gets its verdict. */
  lemma EndingDecides(e: Ending)
    requires Possible(e)
    ensures StatusResponse(Word(e)) == Verdict(e)
    ensures IsSuccess(Word(e)) <==> e == Exited(0)
    ensures IsCleanWord(Word(e)) <==> e == Exited(0)
  {
    match e
    case Exited(code) => assert Word(e) / 256 == code;
    case Killed(signal, coreDumped) => assert Word(e) % 128 == signal;
    case WaitFailed(_) =>
  }

  /** The status words that count as a clean exit, whatever bits no child sets. */
  predicate IsCleanWord(status: int) {
    status >= 0 && (status % 128 == 0 || status % 128 == 127) && status / 256 % 256 == 0
  }

  /** The response text for every status word there is. */
  function WordText(status: int): (text: string)
    ensures text != ""
  {
    if status < 0 || 1 <= status % 128 <= 126 then "Zinternal server error"
    else match status / 256 % 256
      case 0 => "K"
      case 64 => "Dinternal server error"
      case 72 => "Dinternal server error"
      case 77 => "Dinternal server error"
      case 78 => "Dinternal server error"
      case _ => "Zinternal server error"
  }

  lemma StatusResponseIs(status: int)
    ensures StatusResponse(status) == WordText(status)
    ensures IsSuccess(status) <==> IsCleanWord(status)
  {
  }

  lemma LowBits(q: nat, r: nat)
    requires r < 128
    ensures (128 * q + r) % 128 == r
  {
  }

  /** A signal wins over whatever the exit code's byte holds. */
  lemma SignalWins(signal: nat, upper: nat, coreDumped: bool)
    requires 1 <= signal <= 126
    ensures StatusResponse(256 * upper + Word(Killed(signal, coreDumped))) == "Zinternal server error"
    ensures !IsSuccess(256 * upper + Word(Killed(signal, coreDumped)))
  {
    LowBits(2 * upper + (if coreDumped then 1 else 0), signal);
  }

  /** K means success, D one of four exit codes; everything else is temporary. */
  lemma StatusResponseCode(status: int)
    ensures StatusResponse(status) != ""
    ensures StatusResponse(status)[0] == 'K' <==> IsCleanWord(status)
    ensures StatusResponse(status)[0] == 'D'
       <==> status >= 0 && (status % 128 == 0 || status % 128 == 127) && status / 256 % 256 in {64, 72, 77, 78}
    ensures StatusResponse(status)[0] == 'K' || StatusResponse(status)[0] == 'D' || StatusResponse(status)[0] == 'Z'
  {
  }
}

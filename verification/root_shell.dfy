/**
 * Classification of one privileged (`su`) command run. Spawning the shell,
 * writing the command and `exit`, waiting and reading the streams are I/O;
 * the model keeps only what the helpers observe of them and decides from that.
 */
module RootShell {
  import opened Wrappers
  import opened KotlinText

  /** `ROOT_COMMAND_TIMEOUT_SEC`: how long the panel's helpers wait for the shell to exit. */
  const TimeoutSeconds: nat := 5

  /** The lines read from one stream of the process, and whether reading stopped on an exception. */
  datatype StreamRead = Complete(lines: seq<string>) | Broken(lines: seq<string>)

  /** What one run of `su` amounts to, as the helpers can see it. */
  datatype ProcOutcome =
    | Raised   // starting `su`, writing to it, flushing or waiting threw
    | Hung     // the process never exits
    | Exited(exitCode: int, inTime: bool, stderr: StreamRead, stdout: StreamRead)
      // `inTime`: it exited within the timeout of the waiting helper

  /** A conservative success rule: exit code 0 within the timeout and not one line on stderr. */
  predicate Succeeded(o: ProcOutcome) {
    o.Exited? && o.inTime && o.exitCode == 0 && o.stderr.lines == []
  }

  /**
   * The panel's `executeRootCommand`: true exactly for a zero exit code
   * observed within the timeout. It never reads either stream.
   */
  function RunChecked(o: ProcOutcome): (ok: bool)
    ensures ok <==> o.Exited? && o.inTime && o.exitCode == 0
  {
    match o
    case Exited(code, inTime, _, _) => inTime && code == 0
    case _ => false
  }

  /**
   * The panel's `executeRootCommandWithOutput`: the trimmed standard output,
   * newline-joined, present only when the command succeeded and its output
   * could be read to the end.
   */
  function RunForOutput(o: ProcOutcome): (out: Option<string>)
    ensures out.Some? <==> Succeeded(o) && o.stdout.Complete?
    ensures out.Some? ==> out.value == Trim(JoinLines(o.stdout.lines))
    ensures out.Some? ==> NoEdgeWhitespace(out.value)
  {
    match o
    case Exited(code, inTime, stderr, stdout) =>
      if !inTime then None
      else
        var errorSeen := stderr.lines != [];
        if code == 0 && !errorSeen then
          match stdout
          case Complete(lines) => Some(Trim(JoinLines(lines)))
          case Broken(_) => None
        else None
    case _ => None
  }

  /**
   * The accessibility service's `executeRootCommand`: it waits without a limit,
   * so a process that never exits means the call never returns (`None`);
   * otherwise the answer is whether the exit code is 0.
   */
  function RunUnbounded(o: ProcOutcome): (ok: Option<bool>)
    ensures ok.None? <==> o.Hung?
    ensures ok == Some(true) <==> o.Exited? && o.exitCode == 0
  {
    match o
    case Raised => Some(false)
    case Hung => None
    case Exited(code, _, _, _) => Some(code == 0)
  }

  /** Every outcome that yields output meets the conservative success rule `Succeeded`, and every such success passes the boolean check. */
  lemma OutputImpliesChecked(o: ProcOutcome)
    ensures RunForOutput(o).Some? ==> Succeeded(o)
    ensures Succeeded(o) ==> RunChecked(o)
  {
  }

  /**
   * Stderr demotes only the output helper: exit code 0 in time with a line on
   * stderr yields no output, yet the boolean helper reports success.
   */
  lemma StderrDemotesOnlyOutput(o: ProcOutcome)
    requires o.Exited? && o.inTime && o.exitCode == 0 && o.stderr.lines != []
    ensures RunForOutput(o).None?
    ensures RunChecked(o)
    ensures !Succeeded(o)
  {
  }

  /** A process that does not exit within the timeout is a failure for both of the panel's helpers. */
  lemma TimeoutIsFailure(o: ProcOutcome)
    requires o.Hung? || (o.Exited? && !o.inTime)
    ensures !RunChecked(o) && RunForOutput(o).None?
  {
  }

  /** The unbounded helper agrees with the bounded one except on late exits, which it still accepts. */
  lemma UnboundedAgreesWithChecked(o: ProcOutcome)
    ensures RunChecked(o) ==> RunUnbounded(o) == Some(true)
    ensures RunUnbounded(o) == Some(true) && !RunChecked(o) ==> o.Exited? && !o.inTime
  {
  }

  /** A clean run, exiting 0 in time with nothing on stderr, whose standard output is the one line `line`. */
  function CleanRead(line: string): ProcOutcome {
    Exited(0, true, Complete([]), Complete([line]))
  }

  /** A clean run printing one line hands back that line without its surrounding blanks. */
  lemma SingleLineOutput(line: string)
    requires NoEdgeWhitespace(line)
    ensures RunForOutput(CleanRead(line)) == Some(line)
  {
    TrimSingleLine(line);
  }
}

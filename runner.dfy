/**
 * Running one command. The shell, the 60-second wall clock and the killing
 * of a timed-out process are outside the model: how a command ended is an
 * `Outcome` supplied by the caller, and this module turns it into the
 * record the handler appends.
 */
module Runner {
  import opened Text
  import opened Records

  /** How the shell process ended, with its decoded, unstripped streams. */
  datatype Outcome =
    | Exit(code: int, stdout: string, stderr: string)
    | Timeout

  const TimeoutMessage := "Command timed out"

  /**
   * The record of one command: exit status 0 is a success (whatever was
   * written to stderr), any other exit status is a failure, and a timeout
   * reports an empty stdout and a fixed message on stderr. Captured streams
   * are stripped; a failure's empty stream is reported as "".
   */
  function Execute(alert: string, alertId: string, cmd: string, o: Outcome): (r: Record)
    ensures r.Executed? && r.alert == alert && r.alertId == alertId && r.command == cmd
    ensures r.status == Success <==> o.Exit? && o.code == 0
    ensures r.status == Failed <==> o.Exit? && o.code != 0
    ensures r.status == TimedOut <==> o.Timeout?
    ensures o.Exit? ==> r.stdout == Trim(o.stdout) && r.stderr == Trim(o.stderr)
    ensures o.Timeout? ==> r.stdout == "" && r.stderr == TimeoutMessage
  {
    match o
    case Exit(code, out, err) =>
      if code == 0 then
        Executed(alert, alertId, cmd, Success, Trim(out), Trim(err))
      else
        Executed(alert, alertId, cmd, Failed,
                 if out != "" then Trim(out) else "",
                 if err != "" then Trim(err) else "")
    case Timeout =>
      Executed(alert, alertId, cmd, TimedOut, "", TimeoutMessage)
  }
}

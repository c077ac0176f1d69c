/**
 * The records the handler appends to `results`, and the string-to-string
 * dictionaries they become in the JSON response.
 */
module Records {
  import opened Wrappers

  /** How one command ended. */
  datatype RunStatus = Success | Failed | TimedOut

  datatype Record =
    | UrlError(alert: string, url: string)
    | ConfigError(alert: string)
    | NoCommand(alert: string, alertId: string)
    | Executed(alert: string, alertId: string, command: string,
               status: RunStatus, stdout: string, stderr: string)

  const AlertKey := "alert"
  const ErrorKey := "error"
  const AlertIdKey := "alert_id"
  const WarningKey := "warning"
  const CommandKey := "command"
  const StatusKey := "status"
  const StdoutKey := "stdout"
  const StderrKey := "stderr"

  const InvalidUrlPrefix := "Invalid generatorURL format: "
  const ConfigNotFound := "Configuration file not found"
  const NoCommandWarning := "No command found for this alert_id"

  function StatusTag(s: RunStatus): string
  {
    match s
    case Success => "success"
    case Failed => "failed"
    case TimedOut => "timeout"
  }

  function ParseStatus(t: string): (r: Option<RunStatus>)
    ensures r.Some? ==> StatusTag(r.value) == t
  {
    if t == "success" then Some(Success)
    else if t == "failed" then Some(Failed)
    else if t == "timeout" then Some(TimedOut)
    else None
  }

  /** The JSON object of one record. */
  function Fields(r: Record): (d: map<string, string>)
    ensures AlertKey in d && d[AlertKey] == r.alert
    ensures AlertIdKey in d <==> !r.UrlError? && !r.ConfigError?
    ensures ErrorKey in d <==> r.UrlError? || r.ConfigError?
  {
    match r
    case UrlError(a, u) =>
      map[AlertKey := a, ErrorKey := InvalidUrlPrefix + u]
    case ConfigError(a) =>
      map[AlertKey := a, ErrorKey := ConfigNotFound]
    case NoCommand(a, id) =>
      map[AlertKey := a, AlertIdKey := id, WarningKey := NoCommandWarning]
    case Executed(a, id, c, s, out, err) =>
      map[AlertKey := a, AlertIdKey := id, CommandKey := c,
          StatusKey := StatusTag(s), StdoutKey := out, StderrKey := err]
  }

  /** Reads a record back from its JSON object: the set of keys tells the kind. */
  function Parse(d: map<string, string>): Option<Record>
  {
    if d.Keys == {AlertKey, ErrorKey} then
      var e := d[ErrorKey];
      if e == ConfigNotFound then Some(ConfigError(d[AlertKey]))
      else if InvalidUrlPrefix <= e then Some(UrlError(d[AlertKey], e[|InvalidUrlPrefix|..]))
      else None
    else if d.Keys == {AlertKey, AlertIdKey, WarningKey} then
      if d[WarningKey] == NoCommandWarning then Some(NoCommand(d[AlertKey], d[AlertIdKey]))
      else None
    else if d.Keys == {AlertKey, AlertIdKey, CommandKey, StatusKey, StdoutKey, StderrKey} then
      match ParseStatus(d[StatusKey])
      case None => None
      case Some(s) =>
        Some(Executed(d[AlertKey], d[AlertIdKey], d[CommandKey], s, d[StdoutKey], d[StderrKey]))
    else None
  }

  /** Every record can be told apart from every other by its JSON object. */
  lemma ParseFields(r: Record)
    ensures Parse(Fields(r)) == Some(r)
  {
    var d := Fields(r);
    match r
    case UrlError(a, u) =>
      assert d.Keys == {AlertKey, ErrorKey};
      assert d[ErrorKey][0] != ConfigNotFound[0];
      assert d[ErrorKey][|InvalidUrlPrefix|..] == u;
    case ConfigError(a) =>
      assert d.Keys == {AlertKey, ErrorKey};
    case NoCommand(a, id) =>
      assert d.Keys == {AlertKey, AlertIdKey, WarningKey};
    case Executed(a, id, c, s, out, err) =>
      assert d.Keys == {AlertKey, AlertIdKey, CommandKey, StatusKey, StdoutKey, StderrKey};
      assert ParseStatus(StatusTag(s)) == Some(s);
  }

  /** A JSON object that reads as a record is exactly that record's object. */
  lemma FieldsParse(d: map<string, string>, r: Record)
    requires Parse(d) == Some(r)
    ensures Fields(r) == d
  {
    var f := Fields(r);
    if d.Keys == {AlertKey, ErrorKey} {
      if d[ErrorKey] != ConfigNotFound {
        assert InvalidUrlPrefix + d[ErrorKey][|InvalidUrlPrefix|..] == d[ErrorKey];
      }
      assert f.Keys == d.Keys;
    } else if d.Keys == {AlertKey, AlertIdKey, WarningKey} {
      assert f.Keys == d.Keys;
    } else {
      assert f.Keys == d.Keys;
    }
  }
}

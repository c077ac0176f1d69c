/**
 * The webhook handler: for every alert of the batch, in order, filter on
 * the status, extract the identifier, resolve it against the configuration
 * and run its commands, appending one record per outcome.
 *
 * The configuration file is a parameter (`None` when the file does not
 * exist) and so is the command runner (`run`, how each command ends).
 */
module Dispatcher {
  import opened Wrappers
  import opened Text
  import opened Schema
  import opened Extractor
  import opened Resolver
  import opened Records
  import opened Runner

  // ---------------------------------------------------------------------------
  // Specification
  // ---------------------------------------------------------------------------

  /** One record per command, in command order. */
  function ExecRecords(alert: string, alertId: string, cmds: seq<string>, run: string -> Outcome): seq<Record>
  {
    if |cmds| == 0 then []
    else
      var last := cmds[|cmds| - 1];
      ExecRecords(alert, alertId, cmds[..|cmds| - 1], run) + [Execute(alert, alertId, last, run(last))]
  }

  /** The records one alert contributes. */
  function AlertRecords(a: Alert, config: Option<Config>, run: string -> Outcome): seq<Record>
  {
    var name := AlertName(a);
    if !IsFiring(a.status) then []
    else match ExtractId(a.generatorURL)
      case None => [UrlError(name, a.generatorURL)]
      case Some(id) =>
        match config
        case None => [ConfigError(name)]
        case Some(items) =>
          var command := Lookup(items, id);
          if !Truthy(command) then [NoCommand(name, id)]
          else ExecRecords(name, id, Normalise(command), run)
  }

  /** The lists `f(x)` for the elements of `xs`, concatenated in order. */
  function Concat<A, B>(xs: seq<A>, f: A -> seq<B>): seq<B>
  {
    if |xs| == 0 then []
    else Concat(xs[..|xs| - 1], f) + f(xs[|xs| - 1])
  }

  /** Concatenation of results distributes over splitting the input. */
  lemma {:induction false} ConcatAppend<A, B>(xs: seq<A>, ys: seq<A>, f: A -> seq<B>)
    ensures Concat(xs + ys, f) == Concat(xs, f) + Concat(ys, f)
  {
    if |ys| == 0 {
      assert xs + ys == xs;
    } else {
      var init := ys[..|ys| - 1];
      assert (xs + ys)[..|xs + ys| - 1] == xs + init;
      ConcatAppend(xs, init, f);
    }
  }

  /** The records of a batch: each alert's records, in alert order. */
  function Dispatch(alerts: seq<Alert>, config: Option<Config>, run: string -> Outcome): seq<Record>
  {
    Concat(alerts, (a: Alert) => AlertRecords(a, config, run))
  }

  /** The firing alerts of a batch, in order. */
  function FiringOnly(alerts: seq<Alert>): seq<Alert>
  {
    if |alerts| == 0 then []
    else
      var last := alerts[|alerts| - 1];
      FiringOnly(alerts[..|alerts| - 1]) + (if IsFiring(last.status) then [last] else [])
  }

  // ---------------------------------------------------------------------------
  // The handler
  // ---------------------------------------------------------------------------

  /** `handle_alert`: the `results` list of the response. */
  method HandleAlert(data: AlertRequest, config: Option<Config>, run: string -> Outcome)
    returns (results: seq<Record>)
    ensures results == Dispatch(data.alerts, config, run)
  {
    results := [];
    for i := 0 to |data.alerts|
      invariant results == Dispatch(data.alerts[..i], config, run)
    {
      assert data.alerts[..i + 1][..i] == data.alerts[..i];
      var alert := data.alerts[i];
      var alertStatus := Lower(alert.status);
      var alertName := AlertName(alert);
      var generatorUrl := alert.generatorURL;

      if alertStatus != Firing {
        continue;
      }

      var extracted := ExtractId(generatorUrl);
      if extracted.None? {
        results := results + [UrlError(alertName, generatorUrl)];
        continue;
      }
      var alertId := extracted.value;

      if config.None? {
        results := results + [ConfigError(alertName)];
        continue;
      }
      var items := config.value;

      var commandToRun := FindCommand(items, alertId);
      if !Truthy(commandToRun) {
        results := results + [NoCommand(alertName, alertId)];
        continue;
      }

      var commands := Normalise(commandToRun);
      var executed := RunCommands(alertName, alertId, commands, run);
      results := results + executed;
    }
    assert data.alerts[..|data.alerts|] == data.alerts;
  }

  /**
   * The search of the "alert" list: the command of the first item holding
   * the identifier, scanning in order and stopping at the first hit.
   */
  method FindCommand(items: Config, alertId: string) returns (commandToRun: CommandValue)
    ensures commandToRun == Lookup(items, alertId)
  {
    commandToRun := Absent;
    for j := 0 to |items|
      invariant commandToRun == Absent
      invariant Lookup(items[j..], alertId) == Lookup(items, alertId)
    {
      assert items[j..][1..] == items[j + 1..];
      if alertId in items[j] {
        commandToRun := items[j][alertId].command;
        break;
      }
    }
  }

  /** Runs the commands one after the other, one record each, none skipped. */
  method RunCommands(alertName: string, alertId: string, commands: seq<string>, run: string -> Outcome)
    returns (records: seq<Record>)
    ensures records == ExecRecords(alertName, alertId, commands, run)
  {
    records := [];
    for k := 0 to |commands|
      invariant records == ExecRecords(alertName, alertId, commands[..k], run)
    {
      assert commands[..k + 1][..k] == commands[..k];
      var cmd := commands[k];
      records := records + [Execute(alertName, alertId, cmd, run(cmd))];
    }
    assert commands[..|commands|] == commands;
  }

  // ---------------------------------------------------------------------------
  // Properties of one alert
  // ---------------------------------------------------------------------------

  /**
   * The commands run independently: the i-th record is the outcome of the
   * i-th command alone, so a failure or timeout does not stop later ones.
   */
  lemma {:induction false} ExecRecordsAt(alert: string, alertId: string, cmds: seq<string>, run: string -> Outcome)
    ensures |ExecRecords(alert, alertId, cmds, run)| == |cmds|
    ensures forall i :: 0 <= i < |cmds| ==>
      ExecRecords(alert, alertId, cmds, run)[i] == Execute(alert, alertId, cmds[i], run(cmds[i]))
  {
    if |cmds| > 0 {
      ExecRecordsAt(alert, alertId, cmds[..|cmds| - 1], run);
    }
  }

  /**
   * Every record of an alert carries its name, and an alert contributes no
   * record exactly when it is not firing.
   */
  lemma AlertRecordsShape(a: Alert, config: Option<Config>, run: string -> Outcome)
    ensures |AlertRecords(a, config, run)| == 0 <==> !IsFiring(a.status)
    ensures forall r :: r in AlertRecords(a, config, run) ==> r.alert == AlertName(a)
  {
    if IsFiring(a.status) && ExtractId(a.generatorURL).Some? && config.Some? {
      var id := ExtractId(a.generatorURL).value;
      var command := Lookup(config.value, id);
      if Truthy(command) {
        ExecRecordsAt(AlertName(a), id, Normalise(command), run);
      }
    }
  }

  /**
   * A bad generatorURL gives exactly one error record whatever the
   * configuration: the URL is checked before the configuration is read.
   */
  lemma UrlErrorFirst(a: Alert, config: Option<Config>, run: string -> Outcome)
    requires IsFiring(a.status) && ExtractId(a.generatorURL).None?
    ensures AlertRecords(a, config, run) == [UrlError(AlertName(a), a.generatorURL)]
    ensures Fields(AlertRecords(a, config, run)[0])[ErrorKey] == "Invalid generatorURL format: " + a.generatorURL
  {
  }

  /** A missing configuration file gives exactly one error record. */
  lemma ConfigErrorOnce(a: Alert, run: string -> Outcome)
    requires IsFiring(a.status) && ExtractId(a.generatorURL).Some?
    ensures AlertRecords(a, None, run) == [ConfigError(AlertName(a))]
  {
  }

  /** An unmapped identifier, or a falsy command, gives exactly one warning record. */
  lemma NoCommandOnce(a: Alert, items: Config, run: string -> Outcome)
    requires IsFiring(a.status) && ExtractId(a.generatorURL).Some?
    requires !Truthy(Lookup(items, ExtractId(a.generatorURL).value))
    ensures AlertRecords(a, Some(items), run) == [NoCommand(AlertName(a), ExtractId(a.generatorURL).value)]
  {
  }

  /** A resolved command list yields exactly one record per command, in order. */
  lemma CommandsRunInOrder(a: Alert, items: Config, run: string -> Outcome)
    requires IsFiring(a.status) && ExtractId(a.generatorURL).Some?
    requires Truthy(Lookup(items, ExtractId(a.generatorURL).value))
    ensures var id := ExtractId(a.generatorURL).value;
      var cmds := Normalise(Lookup(items, id));
      var rs := AlertRecords(a, Some(items), run);
      |rs| == |cmds| &&
      forall i :: 0 <= i < |cmds| ==> rs[i] == Execute(AlertName(a), id, cmds[i], run(cmds[i]))
  {
    var id := ExtractId(a.generatorURL).value;
    ExecRecordsAt(AlertName(a), id, Normalise(Lookup(items, id)), run);
  }

  /**
   * A non-empty single command behaves exactly like a one-element list
   * holding it, whatever else its item holds and wherever the item sits in
   * the configuration.
   */
  lemma SingleAsList(a: Alert, pre: Config, post: Config, x: Item, key: string, s: string, run: string -> Outcome)
    requires key in x && x[key] == Settings(Single(s)) && s != ""
    ensures AlertRecords(a, Some(pre + [x] + post), run)
         == AlertRecords(a, Some(pre + [x[key := Settings(Many([s]))]] + post), run)
  {
    match ExtractId(a.generatorURL)
    case None =>
    case Some(id) =>
      LookupAfterSwap(pre, post, id, x, key, s);
  }

  /**
   * Replacing a single command by the one-element list holding it changes
   * the lookup of any identifier at most from that single to that list.
   */
  lemma {:induction false} LookupAfterSwap(pre: Config, post: Config, id: string, x: Item, key: string, s: string)
    requires key in x && x[key] == Settings(Single(s))
    ensures var single := Lookup(pre + [x] + post, id);
      var list := Lookup(pre + [x[key := Settings(Many([s]))]] + post, id);
      single == list || (single == Single(s) && list == Many([s]))
  {
    var y := x[key := Settings(Many([s]))];
    assert pre + [x] + post == pre + ([x] + post);
    assert pre + [y] + post == pre + ([y] + post);
    if k :| 0 <= k < |pre| && id in pre[k] {
      LookupFirstWins(pre, [x] + post, id, k);
      LookupFirstWins(pre, [y] + post, id, k);
    } else {
      LookupSkips(pre, [x] + post, id);
      LookupSkips(pre, [y] + post, id);
      assert ([x] + post)[1..] == post;
      assert ([y] + post)[1..] == post;
    }
  }

  /**
   * The empty single command is not the same as a list holding the empty
   * command: the first is falsy and gives a warning, the second runs.
   */
  lemma EmptySingleIsNotList(a: Alert, id: string, run: string -> Outcome)
    requires IsFiring(a.status) && ExtractId(a.generatorURL) == Some(id)
    ensures AlertRecords(a, Some([map[id := Settings(Single(""))]]), run) == [NoCommand(AlertName(a), id)]
    ensures AlertRecords(a, Some([map[id := Settings(Many([""]))]]), run)
         == [Execute(AlertName(a), id, "", run(""))]
  {
    var single: Config := [map[id := Settings(Single(""))]];
    var list: Config := [map[id := Settings(Many([""]))]];
    assert Lookup(single, id) == Single("");
    assert Lookup(list, id) == Many([""]);
    NoCommandOnce(a, single, run);
    CommandsRunInOrder(a, list, run);
  }

  // ---------------------------------------------------------------------------
  // Properties of the batch
  // ---------------------------------------------------------------------------

  /** Records accumulate in alert order: a batch's records are its parts' records, concatenated. */
  lemma DispatchAppend(xs: seq<Alert>, ys: seq<Alert>, config: Option<Config>, run: string -> Outcome)
    ensures Dispatch(xs + ys, config, run) == Dispatch(xs, config, run) + Dispatch(ys, config, run)
  {
    ConcatAppend(xs, ys, (a: Alert) => AlertRecords(a, config, run));
  }

  /** A batch of one alert yields that alert's records. */
  lemma DispatchOne(a: Alert, config: Option<Config>, run: string -> Outcome)
    ensures Dispatch([a], config, run) == AlertRecords(a, config, run)
  {
    var f := (a: Alert) => AlertRecords(a, config, run);
    assert [a][..0] == [];
    assert Concat([a], f) == Concat([], f) + f(a);
  }

  /** Alerts that are not firing contribute nothing: only the firing ones matter. */
  lemma {:induction false} DispatchSkipsNonFiring(alerts: seq<Alert>, config: Option<Config>, run: string -> Outcome)
    ensures Dispatch(alerts, config, run) == Dispatch(FiringOnly(alerts), config, run)
  {
    if |alerts| > 0 {
      var init := alerts[..|alerts| - 1];
      var last := alerts[|alerts| - 1];
      DispatchSkipsNonFiring(init, config, run);
      if IsFiring(last.status) {
        DispatchAppend(FiringOnly(init), [last], config, run);
        assert [last][..0] == [];
      } else {
        AlertRecordsShape(last, config, run);
        assert AlertRecords(last, config, run) == [];
        assert Dispatch(alerts, config, run) == Dispatch(init, config, run);
        assert FiringOnly(alerts) == FiringOnly(init) + [] == FiringOnly(init);
      }
    }
  }

  /** Of a firing and a resolved alert, in either order, only the firing one yields records. */
  lemma FiringBesideResolved(f: Alert, r: Alert, config: Option<Config>, run: string -> Outcome)
    requires IsFiring(f.status) && !IsFiring(r.status)
    ensures Dispatch([f, r], config, run) == AlertRecords(f, config, run)
    ensures Dispatch([r, f], config, run) == AlertRecords(f, config, run)
  {
    AlertRecordsShape(r, config, run);
    DispatchOne(f, config, run);
    DispatchOne(r, config, run);
    DispatchAppend([f], [r], config, run);
    DispatchAppend([r], [f], config, run);
    assert [f] + [r] == [f, r] && [r] + [f] == [r, f];
  }

  /** Every record of a batch names a firing alert of that batch. */
  lemma {:induction false} DispatchNamesFiringAlerts(alerts: seq<Alert>, config: Option<Config>, run: string -> Outcome)
    ensures forall r :: r in Dispatch(alerts, config, run) ==>
      exists j :: 0 <= j < |alerts| && IsFiring(alerts[j].status) && r.alert == AlertName(alerts[j])
  {
    if |alerts| > 0 {
      var n := |alerts| - 1;
      var init := alerts[..n];
      DispatchNamesFiringAlerts(init, config, run);
      AlertRecordsShape(alerts[n], config, run);
      forall r | r in Dispatch(alerts, config, run)
        ensures exists j :: 0 <= j < |alerts| && IsFiring(alerts[j].status) && r.alert == AlertName(alerts[j])
      {
        if r in Dispatch(init, config, run) {
          var j :| 0 <= j < |init| && IsFiring(init[j].status) && r.alert == AlertName(init[j]);
          assert alerts[j] == init[j];
        } else {
          assert r in AlertRecords(alerts[n], config, run);
        }
      }
    }
  }

  /** The record an alert gets when there is no configuration file. */
  function NoConfigRecord(a: Alert): Record
  {
    if ExtractId(a.generatorURL).Some? then ConfigError(AlertName(a))
    else UrlError(AlertName(a), a.generatorURL)
  }

  /**
   * Without a configuration file every firing alert gets exactly one
   * record: the URL error if its URL is bad, the missing-file error otherwise.
   */
  lemma {:induction false} DispatchWithoutConfig(alerts: seq<Alert>, run: string -> Outcome)
    ensures |Dispatch(alerts, None, run)| == |FiringOnly(alerts)|
    ensures forall i :: 0 <= i < |FiringOnly(alerts)| ==>
      Dispatch(alerts, None, run)[i] == NoConfigRecord(FiringOnly(alerts)[i])
  {
    if |alerts| > 0 {
      DispatchWithoutConfig(alerts[..|alerts| - 1], run);
    }
  }

  // ---------------------------------------------------------------------------
  // Worked examples
  // ---------------------------------------------------------------------------

  /** "http://host/grafana/42/view" */
  const ExampleUrl := "http://host" + "/grafana/" + "42" + "/view"

  lemma ExampleUrlId()
    ensures ExtractId(ExampleUrl) == Some("42")
  {
    NoGrafanaWithoutG("http://host");
    ExtractFromPath("http://host", "42", "/view");
  }

  /** A firing alert mapped to `echo ok` that prints "ok" yields one success record. */
  lemma ExampleEchoOk(a: Alert, run: string -> Outcome)
    requires a.status == "firing" && a.generatorURL == ExampleUrl
    requires run("echo ok") == Exit(0, "ok" + "\n", "")
    ensures Dispatch([a], Some([map["42" := Settings(Single("echo ok"))]]), run)
         == [Executed(AlertName(a), "42", "echo ok", Success, "ok", "")]
  {
    var items: Config := [map["42" := Settings(Single("echo ok"))]];
    ExampleUrlId();
    ExampleIsFiring(a);
    ExampleLookup();
    CommandsRunInOrder(a, items, run);
    ExampleEchoRecord(AlertName(a), run("echo ok"));
    DispatchOne(a, Some(items), run);
  }

  lemma ExampleLookup()
    ensures Lookup([map["42" := Settings(Single("echo ok"))]], "42") == Single("echo ok")
  {
  }

  lemma ExampleEchoRecord(name: string, o: Outcome)
    requires o == Exit(0, "ok" + "\n", "")
    ensures Execute(name, "42", "echo ok", o) == Executed(name, "42", "echo ok", Success, "ok", "")
  {
    TrimNewline("ok");
  }

  lemma ExampleIsFiring(a: Alert)
    requires a.status == "firing"
    ensures IsFiring(a.status)
  {
    assert Lower("firing") == "firing";
  }

  /** The same alert with no mapping for "42" yields the warning record. */
  lemma ExampleUnmapped(a: Alert, run: string -> Outcome)
    requires a.status == "firing" && a.generatorURL == ExampleUrl
    ensures Dispatch([a], Some([map["41" := Settings(Single("echo ok"))]]), run)
         == [NoCommand(AlertName(a), "42")]
  {
    ExampleUrlId();
    ExampleIsFiring(a);
    DispatchOne(a, Some([map["41" := Settings(Single("echo ok"))]]), run);
  }
}

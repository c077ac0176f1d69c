# alert-executor: a verified model of the alert dispatch handler

alert-executor is a webhook receiver for Grafana / Alertmanager
notifications. For every alert of a batch it decides whether the alert is
firing, extracts an alert identifier from the alert's `generatorURL`, looks
the identifier up in a YAML mapping (`alerts_config.yaml`) and runs the
mapped shell command or commands, collecting one JSON record per outcome
into the `results` list of the response.

This project models that handler, `handle_alert` in `main.py`, in Dafny:

- `wrappers.dfy` — `Option`.
- `text.dfy` (module `Text`) — the Python `str` operations the handler
  uses: `split('/')` (with `'/'.join` as its inverse), `lower()` and
  `strip()` (with Python's whitespace set).
- `schema.dfy` (module `Schema`) — the `Alert` and `AlertRequest` request
  shapes, the alert's display name and the "firing" filter.
- `extractor.dfy` (module `Extractor`) — the identifier: the piece of the
  split URL right after the first `grafana` piece.
- `resolver.dfy` (module `Resolver`) — the parsed mapping, the first-match
  lookup, Python truthiness of the found command and its normalisation to a
  list.
- `records.dfy` (module `Records`) — the four kinds of result record and the
  JSON object each becomes, with a decoder that inverts it.
- `runner.dfy` (module `Runner`) — turning how a command ended (exit code
  and streams, or a timeout) into its record.
- `dispatcher.dfy` (module `Dispatcher`) — the handler itself: the method
  `HandleAlert`, which loops over the alerts with the same early exits as
  the source, searches the mapping with a loop that stops at the first hit
  and runs the commands one after the other; it is proved equal to the
  specification function `Dispatch`, about which the remaining lemmas are
  proved.

Inputs that the source reads from the outside world are parameters: the
parsed mapping is `Option<Config>` (`None` when the configuration file does
not exist, otherwise the list under its `alert` key, the empty list when the
key is missing), and the command runner is a function `run` from the command
string to an `Outcome` (`Exit(code, stdout, stderr)` or `Timeout`).

A single command string behaves like a one-element list holding it only
when it is non-empty. An empty string is falsy and gives the "No command
found" warning, while `[""]` is a non-empty list whose empty command is run.
`SingleAsList` and `EmptySingleIsNotList` prove both halves.

## Model

| member | source | states |
|---|---|---|
| `Dispatcher.HandleAlert` | main.py:61-183 | the `results` list the handler builds by appending inside its loop over the alerts (with its early `continue`s) is exactly `Dispatch` of the alerts |
| `Dispatcher.FindCommand` | main.py:110-114 | scanning the `alert` list in order and stopping at the first item holding the id returns exactly `Lookup(items, id)` (Absent when no item holds it) |
| `Dispatcher.RunCommands` | main.py:132-181 | running the commands one after another yields exactly one record per command, `ExecRecords` of the list |
| `Dispatcher.Dispatch` | main.py:69-183 | the `results` list of a batch: each alert's records in alert order; characterised by `DispatchAppend`, `DispatchOne`, `DispatchSkipsNonFiring`, `DispatchNamesFiringAlerts` and `DispatchWithoutConfig`, and equal to what `HandleAlert` builds |
| `Dispatcher.AlertRecords` | main.py:72-181 | the records one alert contributes, the loop body; characterised by `AlertRecordsShape`, `UrlErrorFirst`, `ConfigErrorOnce`, `NoCommandOnce` and `CommandsRunInOrder` |
| `Dispatcher.ExecRecords` | main.py:132-181 | one record per command in command order; characterised by `ExecRecordsAt` and equal to what `RunCommands` builds |
| `Resolver.Lookup` | main.py:110-114 | the command of the first item holding the id, or Absent; characterised by `LookupSpec`, `LookupFirstWins` and `LookupSkips`, and equal to what `FindCommand` returns |
| `Resolver.Truthy` | main.py:116 | `command_to_run` is falsy, so `not command_to_run` holds, exactly for a missing command, the empty string and the empty list; its effect is stated by `NoCommandOnce`, `CommandsRunInOrder` and `EmptySingleIsNotList` |
| `Schema.AlertName` | main.py:73 | `labels.get("alertname", "unknown")`; every record carries it, by `AlertRecordsShape` and `DispatchNamesFiringAlerts` |
| `Schema.IsFiring` | main.py:72-81 | the status lower-cased equals "firing"; characterised by `FiringIff` |
| `Text.Lower` | main.py:72 | lower-casing keeps the length and folds each character on its own; characterised by `LowerEqualsIff` |
| `Text.Trim` | main.py:144-145 | `strip` returns a string no longer than its input with no whitespace at either end; `TrimIsSlice`, `TrimIdempotent` and `TrimAllSpace` characterise it |
| `Records.Fields` | main.py:91-181 | the JSON object of each record always carries the alert name, an `alert_id` exactly for the warning and command records and an `error` exactly for the two error records; `ParseFields` and `FieldsParse` show it is injective |
| `Dispatcher.ExecRecordsAt` | main.py:132-181 | there are as many records as commands and the i-th record is the outcome of the i-th command alone, so a failed or timed-out command never stops later ones |
| `Dispatcher.AlertRecordsShape` | main.py:71-81 | an alert contributes no record if and only if its status is not firing, and every record it contributes carries `labels["alertname"]` or "unknown" |
| `Dispatcher.UrlErrorFirst` | main.py:84-95 | a firing alert whose URL yields no id gives exactly one `{alert, error: "Invalid generatorURL format: " + url}` record, whatever the configuration |
| `Dispatcher.ConfigErrorOnce` | main.py:97-105 | a firing alert with a valid id and no configuration file gives exactly one `{alert, error: "Configuration file not found"}` record |
| `Dispatcher.NoCommandOnce` | main.py:110-123 | when the looked-up command is missing or falsy the alert gives exactly one `{alert, alert_id, warning}` record |
| `Dispatcher.CommandsRunInOrder` | main.py:127-181 | with a truthy command the alert yields one record per normalised command, in list order, each the outcome of that command |
| `Dispatcher.SingleAsList` | main.py:127-129 | a non-empty single command string gives the same records as a one-element list holding it, whatever else its item holds and wherever the item sits in the configuration |
| `Dispatcher.EmptySingleIsNotList` | main.py:116-129 | an empty single command gives the warning record, while a list holding the empty command runs it |
| `Dispatcher.DispatchAppend` | main.py:69-71 | records accumulate in alert order: the records of `xs + ys` are those of `xs` followed by those of `ys` |
| `Dispatcher.DispatchOne` | main.py:71 | a batch of one alert yields exactly that alert's records |
| `Dispatcher.DispatchSkipsNonFiring` | main.py:79-81 | the records of a batch are those of its firing alerts alone |
| `Dispatcher.FiringBesideResolved` | main.py:79-81 | of a firing and a non-firing alert, in either order, only the firing one yields records |
| `Dispatcher.DispatchNamesFiringAlerts` | main.py:73 | every record of a batch carries the name of some firing alert of that batch |
| `Dispatcher.DispatchWithoutConfig` | main.py:97-105 | without a configuration file there is exactly one record per firing alert, in order: the URL error for a bad URL, the missing-file error otherwise |
| `Dispatcher.ExampleUrlId` | main.py:84-87 | the id of `http://host/grafana/42/view` is `42` |
| `Dispatcher.ExampleEchoOk` | main.py:144-158 | a firing alert on that URL mapped to `echo ok`, which exits 0 printing "ok\n", yields the single record `{alert, "42", "echo ok", success, "ok", ""}` |
| `Dispatcher.ExampleUnmapped` | main.py:116-123 | the same alert with no entry for `42` yields the single warning record |
| `Extractor.IndexOf` | main.py:86 | `list.index`: `None` exactly when the value is absent, otherwise the position of its first occurrence |
| `Extractor.ExtractId` | main.py:84-87 | an extracted id never contains '/' |
| `Extractor.ExtractIdSpec` | main.py:84-95 | extraction succeeds if and only if some piece other than the last is `grafana`, and then yields the piece right after the first `grafana` |
| `Extractor.SegmentsOfPath` | main.py:84 | the pieces of `<pre>/grafana/<id>[/<rest>]` are those of `pre`, then `grafana`, then `id`, then those of `rest` |
| `Extractor.ExtractFromPath` | main.py:84-87 | for `<pre>/grafana/<id>[/<rest>]` with no `grafana` piece in `pre`, the id is exactly `<id>` |
| `Extractor.ExtractNeedsGrafana` | main.py:86 | without a `grafana` piece extraction fails (`ValueError`) |
| `Extractor.ExtractGrafanaLast` | main.py:87 | a URL whose only `grafana` piece is the last has no id (`IndexError`) |
| `Resolver.LookupSpec` | main.py:110-114 | the lookup yields Absent when no item holds the id, else the command of the first item that holds it |
| `Resolver.LookupFirstWins` | main.py:111-114 | once an earlier item holds the id, items after it are never consulted |
| `Resolver.LookupSkips` | main.py:111-112 | items that do not hold the id are passed over |
| `Resolver.Normalise` | main.py:127-129 | a truthy command becomes a non-empty list: a list stays as it is, a single string becomes a one-element list |
| `Runner.Execute` | main.py:134-181 | exit 0 is `success` with both streams stripped, even with non-empty stderr; a non-zero exit is `failed` with each stream stripped (empty as ""); a timeout is `timeout` with stdout "" and stderr "Command timed out" |
| `Records.ParseFields` | main.py:91-181 | every record's JSON object decodes back to that record, so the four record shapes (and the three status tags) are never confused |
| `Records.FieldsParse` | main.py:91-181 | an object that decodes to a record is exactly that record's JSON object |
| `Schema.FiringIff` | main.py:72-81 | a status is firing if and only if it is the six letters of "firing" in any mix of cases; nothing is trimmed |
| `Text.LowerEqualsIff` | main.py:72 | a string lower-cases to a lower-case target exactly when it spells the target letter by letter up to case |
| `Text.Split` | main.py:84 | `split` gives at least one piece and no piece contains the separator |
| `Text.JoinSplit` | main.py:84 | joining the pieces of a split with the separator gives back the string |
| `Text.SplitJoin` | main.py:84 | splitting the join of separator-free pieces gives back the pieces |
| `Text.SplitAround` | main.py:84 | splitting `a + sep + b` gives the pieces of `a` followed by those of `b` |
| `Text.TrimStart` | main.py:144 | `lstrip` returns the suffix left after removing exactly the leading whitespace |
| `Text.TrimEnd` | main.py:144 | `rstrip` returns the prefix left after removing exactly the trailing whitespace |
| `Text.TrimIsSlice` | main.py:144-145 | `strip` returns a slice of the input with only whitespace removed on either side |
| `Text.TrimIdempotent` | main.py:144-145 | stripping twice is stripping once |
| `Text.TrimAllSpace` | main.py:169-170 | a stream strips to "" if and only if it is all whitespace |
| `Text.TrimNewline` | main.py:144 | the trailing newline of a command's output is stripped and nothing else is |

## Left out

- The FastAPI application, the route, request validation and the
  validation-error handler (main.py:25-56): the model starts from an
  already-decoded `AlertRequest`.
- Logging (main.py:11-23 and every `logger` call): it has no effect on the
  results.
- Reading the configuration (main.py:97-108): the existence check, `open`
  and `yaml.safe_load` are replaced by the `Option<Config>` parameter. The
  source re-reads the file for each alert; the model takes one snapshot per
  request, so a file that appears, disappears or changes in the middle of a
  request is not modelled.
- Configuration documents of other shapes. Such a document raises inside
  the handler, and turns the whole request into an HTTP 500 with no results
  (main.py:185-187), wherever `config.get` (main.py:111), the iteration over
  `config["alert"]` (main.py:111), `alert_id in item` (main.py:112) or
  `item[alert_id].get` (main.py:113) raises. That covers, among others,
  a document that is empty or not a mapping, an `alert` value that is null,
  a number or a boolean, an item that cannot be searched with `in`, an item
  that is a string or a list and does contain the id (indexing it with a
  string fails), a piece of a string or mapping `alert` value that contains
  the id, and a settings value that is not a mapping on an item that holds
  the id. String items, list items and the pieces of a string or mapping
  `alert` value are passed over only when they do not contain the id; so is
  a key the YAML parser reads as a number (an unquoted `42:`), which never
  equals the string id. The typed `Config` stands for these passed-over
  pieces as items that do not hold the id as a key. The raising shapes, and
  a command that is neither a string nor a list of strings, are not
  modelled: where the source fails with a 500, the model may skip the piece
  and find a later match.
- Records.Fields: returns each record's JSON object as a map, so the key
  order of the dict literals (main.py:91-181), which sets the order of the
  keys in the serialised response, is not modelled.
- The generic `except Exception` that turns any other fault into an HTTP 500
  (main.py:185-187), and the uvicorn entry point (main.py:191-193).
- Process execution (main.py:135-143): the shell, the 60-second timeout, the
  killing of a timed-out process and the decoding of the output as text are
  outside the model. How a command ended is given by the `run` parameter, a
  function of the command string. The model therefore treats running the
  same command twice in one request as giving the same outcome.
- Text.Lower: folds only the letters A-Z, where Python's `str.lower` follows
  the whole of Unicode. The handler uses the lower-cased status only in the
  comparison with "firing". No non-ASCII character lower-cases to one of the
  letters f, i, r, n, g on its own, so the firing test is the same.
- The `generatorURL` is split as given: no URL decoding, matching the
  source.

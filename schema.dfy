/**
 * The request shapes the webhook receives, already validated and decoded
 * from JSON, and the two facts the handler reads off every alert: its
 * display name and whether it is firing.
 */
module Schema {
  import opened Wrappers
  import opened Text

  /** One alert of the batch. */
  datatype Alert = Alert(
    status: string,
    labels: map<string, string>,
    annotations: map<string, string>,
    generatorURL: string)

  /** The whole notification batch. */
  datatype AlertRequest = AlertRequest(
    receiver: string,
    status: string,
    alerts: seq<Alert>,
    groupLabels: Option<map<string, string>>,
    commonLabels: Option<map<string, string>>,
    commonAnnotations: Option<map<string, string>>)

  const AlertNameLabel := "alertname"
  const UnknownAlertName := "unknown"
  const Firing := "firing"

  /** `labels.get("alertname", "unknown")`. */
  function AlertName(a: Alert): string
  {
    if AlertNameLabel in a.labels then a.labels[AlertNameLabel] else UnknownAlertName
  }

  /** The filter of the handler: the status, lower-cased, is exactly "firing". */
  predicate IsFiring(status: string)
  {
    Lower(status) == Firing
  }

  /**
   * A status counts as firing exactly when it is the six letters of
   * "firing" in any mix of upper and lower case: nothing is trimmed, so
   * "firing " or "resolved" are not firing.
   */
  lemma FiringIff(status: string)
    ensures IsFiring(status) <==>
      |status| == 6 &&
      forall i :: 0 <= i < 6 ==> status[i] == Firing[i] || status[i] == Firing[i] - 'a' + 'A'
  {
    LowerEqualsIff(status, Firing);
    if |status| == 6 {
      forall i | 0 <= i < 6
        ensures (status[i] == Firing[i] || LowerChar(status[i]) == Firing[i])
            <==> (status[i] == Firing[i] || status[i] == Firing[i] - 'a' + 'A')
      {
      }
    }
  }
}

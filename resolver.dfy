/**
 * The command mapping: the list stored under the configuration's "alert"
 * key, each item a map from alert identifiers to settings holding an
 * optional `command`. Resolving an identifier takes the command of the
 * first item that has the identifier as a key.
 */
module Resolver {

  /** The value of a `command` setting as the YAML parser returns it. */
  datatype CommandValue =
    | Absent                          // no `command` key, or `command: null`
    | Single(command: string)         // one command string
    | Many(commands: seq<string>)     // a list of command strings

  datatype Settings = Settings(command: CommandValue)

  /** One item of the "alert" list. */
  type Item = map<string, Settings>

  /** The "alert" list; a document without that key reads as the empty list. */
  type Config = seq<Item>

  /** `k` is the first item that has `id` as a key. */
  predicate IsFirstHolding(config: Config, id: string, k: int)
  {
    0 <= k < |config| && id in config[k] &&
    forall j :: 0 <= j < k ==> id !in config[j]
  }

  /**
   * The command of the first item holding `id`, or `Absent` when no item
   * holds it; items after the first match are never consulted.
   */
  function Lookup(config: Config, id: string): CommandValue
  {
    if |config| == 0 then Absent
    else if id in config[0] then config[0][id].command
    else Lookup(config[1..], id)
  }

  /**
   * `Lookup` gives `Absent` when no item holds the identifier, and the
   * command of the first item holding it otherwise.
   */
  lemma {:induction false} LookupSpec(config: Config, id: string)
    ensures (forall k :: 0 <= k < |config| ==> id !in config[k]) ==> Lookup(config, id) == Absent
    ensures forall k :: IsFirstHolding(config, id, k) ==> Lookup(config, id) == config[k][id].command
  {
    if |config| > 0 && id !in config[0] {
      LookupSpec(config[1..], id);
      assert forall k :: IsFirstHolding(config, id, k) ==> IsFirstHolding(config[1..], id, k - 1);
    }
  }

  /** Once an earlier item holds the identifier, later items do not matter. */
  lemma {:induction false} LookupFirstWins(pre: Config, post: Config, id: string, k: nat)
    requires k < |pre| && id in pre[k]
    ensures Lookup(pre + post, id) == Lookup(pre, id)
  {
    if id !in pre[0] {
      assert (pre + post)[1..] == pre[1..] + post;
      LookupFirstWins(pre[1..], post, id, k - 1);
    }
  }

  /** Items that do not hold the identifier are skipped. */
  lemma {:induction false} LookupSkips(pre: Config, post: Config, id: string)
    requires forall k :: 0 <= k < |pre| ==> id !in pre[k]
    ensures Lookup(pre + post, id) == Lookup(post, id)
  {
    if |pre| > 0 {
      assert (pre + post)[1..] == pre[1..] + post;
      LookupSkips(pre[1..], post, id);
    } else {
      assert pre + post == post;
    }
  }

  /**
   * Python truthiness of the looked-up command: `None`, the empty string and
   * the empty list are false.
   */
  predicate Truthy(v: CommandValue)
  {
    match v
    case Absent => false
    case Single(c) => c != ""
    case Many(cs) => cs != []
  }

  /**
   * The command list handed to the runner: a list stays as it is, anything
   * else becomes a one-element list. Only applied to a truthy command.
   */
  function Normalise(v: CommandValue): (cmds: seq<string>)
    requires Truthy(v)
    ensures |cmds| >= 1
    ensures v.Many? ==> cmds == v.commands
    ensures v.Single? ==> cmds == [v.command] && cmds[0] != ""
  {
    match v
    case Single(c) => [c]
    case Many(cs) => cs
  }
}

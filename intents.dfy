/**
 * The extras of the Intent that brings the incoming-call screen up: a map from
 * key to value, read back with the platform's defaulting getters.
 */
module Intents {
  import opened Wrappers

  /** A value stored in an Intent's extras (only the two kinds the dialer uses). */
  datatype Extra = BoolExtra(boolValue: bool) | StringExtra(stringValue: string)

  type Extras = map<string, Extra>

  const INCOMING_CALL: string := "incoming_call"
  const PHONE_NUMBER: string := "phone_number"

  /** The sentinel the app shows for a missing number or an unresolved name. */
  const UNKNOWN: string := "Unknown"

  /** Intent.getBooleanExtra: the stored boolean, or `default` when the key is absent or holds another kind. */
  function GetBooleanExtra(extras: Extras, name: string, default: bool): bool
  {
    if name in extras && extras[name].BoolExtra? then extras[name].boolValue else default
  }

  /** Intent.getStringExtra: the stored string, or null when the key is absent or holds another kind. */
  function GetStringExtra(extras: Extras, name: string): Option<string>
  {
    if name in extras && extras[name].StringExtra? then Some(extras[name].stringValue) else None
  }
}

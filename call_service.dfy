/**
 * The call-lifecycle listener (CallService.kt): the platform reports a call
 * added or removed; the service keeps the registry's slot in step and asks
 * for the incoming-call screen to be brought up.
 */
module Service {
  import opened Wrappers
  import opened Telecom
  import opened Intents
  import opened Registry
  import Activity

  /** `call.details.handle?.schemeSpecificPart ?: "Unknown"`: the handle's number, or the sentinel. */
  function DisplayIdentity(call: Call): (r: string)
    ensures r == UNKNOWN || (call.handle.Some? && call.handle.value.schemeSpecificPart == Some(r))
    ensures call.handle.Some? && call.handle.value.schemeSpecificPart.Some? ==>
              r == call.handle.value.schemeSpecificPart.value
  {
    match call.handle
    case Some(Uri(Some(number))) => number
    case _ => UNKNOWN
  }

  /** The extras of the launch request: the activity reads them back as an incoming call from this identity. */
  function LaunchExtras(call: Call): (extras: Extras)
    ensures Activity.IsIncomingCall(extras)
    ensures Activity.PhoneNumber(extras) == DisplayIdentity(call)
  {
    map[INCOMING_CALL := BoolExtra(true), PHONE_NUMBER := StringExtra(DisplayIdentity(call))]
  }

  class CallService {
    /** The process-wide registry. */
    const manager: CallManager
    /** The extras of every Intent passed to startActivity, oldest first. */
    var launched: seq<Extras>

    constructor (manager: CallManager)
      ensures this.manager == manager && launched == []
    {
      this.manager := manager;
      launched := [];
    }

    /** Store the call, overwriting the slot, and ask for the incoming-call screen; no action reaches the call. */
    method OnCallAdded(call: Call)
      modifies this`launched, manager`currentCall
      ensures manager.currentCall == Some(call)
      ensures manager.forwarded == old(manager.forwarded)
      ensures launched == old(launched) + [LaunchExtras(call)]
    {
      manager.SetCurrentCall(Some(call));
      var extras: Extras := map[];
      extras := extras[INCOMING_CALL := BoolExtra(true)];
      extras := extras[PHONE_NUMBER := StringExtra(DisplayIdentity(call))];
      launched := launched + [extras];
    }

    /** Empty the slot, whichever call it held and whichever call was removed. */
    method OnCallRemoved(call: Call)
      modifies manager`currentCall
      ensures manager.currentCall == None
      ensures manager.forwarded == old(manager.forwarded)
    {
      manager.SetCurrentCall(None);
    }
  }
}

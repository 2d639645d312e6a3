/**
 * The process-wide call registry (CallManager.kt): a single optional slot for
 * the current call and three verbs that forward one action to the call in the
 * slot, or do nothing when the slot is empty.
 */
module Registry {
  import opened Wrappers
  import opened Telecom

  /** What acceptCall forwards: answer with audio only. */
  const ANSWER_AUDIO_ONLY: Action := Answer(STATE_AUDIO_ONLY)

  /** What rejectCall forwards: reject without a decline message. */
  const REJECT_SILENTLY: Action := Reject(false, None)

  /**
   * The effect of `currentCall?.act()`: at most one action, to the call in the
   * slot and to no other, and nothing at all when the slot is empty.
   */
  function Forwarded(slot: Option<Call>, a: Action): (r: seq<Forward>)
    ensures |r| == if slot.Some? then 1 else 0
    ensures forall f :: f in r ==> Some(f.call) == slot && f.action == a
  {
    match slot
    case None => []
    case Some(c) => [Forward(c, a)]
  }

  class CallManager {
    /** The slot: the call the app is currently handling, if any. */
    var currentCall: Option<Call>
    /** Every action forwarded to a call so far, oldest first. */
    var forwarded: seq<Forward>

    constructor ()
      ensures currentCall == None && forwarded == []
    {
      currentCall := None;
      forwarded := [];
    }

    /** Overwrites the slot, whatever it held, and forwards nothing. */
    method SetCurrentCall(call: Option<Call>)
      modifies this`currentCall
      ensures currentCall == call
      ensures forwarded == old(forwarded)
    {
      currentCall := call;
    }

    method AcceptCall()
      modifies this`forwarded
      ensures currentCall == old(currentCall)
      ensures forwarded == old(forwarded) + Forwarded(currentCall, ANSWER_AUDIO_ONLY)
    {
      match currentCall
      case None =>
      case Some(c) => forwarded := forwarded + [Forward(c, ANSWER_AUDIO_ONLY)];
    }

    method RejectCall()
      modifies this`forwarded
      ensures currentCall == old(currentCall)
      ensures forwarded == old(forwarded) + Forwarded(currentCall, REJECT_SILENTLY)
    {
      match currentCall
      case None =>
      case Some(c) => forwarded := forwarded + [Forward(c, REJECT_SILENTLY)];
    }

    method EndCall()
      modifies this`forwarded
      ensures currentCall == old(currentCall)
      ensures forwarded == old(forwarded) + Forwarded(currentCall, Disconnect)
    {
      match currentCall
      case None =>
      case Some(c) => forwarded := forwarded + [Forward(c, Disconnect)];
    }
  }
}

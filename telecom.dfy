/**
 * The parts of the platform telephony API that the dialer touches. A call is
 * an opaque token together with the handle in its details; the three actions
 * the app can take on a call are recorded as values, not performed.
 */
module Telecom {
  import opened Wrappers

  /** A call's handle URI (for example tel:+15551234567); only its scheme-specific part is read. */
  datatype Uri = Uri(schemeSpecificPart: Option<string>)

  /** A platform call: an identity the app cannot look inside, and `details.handle`. */
  datatype Call = Call(token: nat, handle: Option<Uri>)

  /** The platform's VideoProfile.STATE_AUDIO_ONLY. */
  const STATE_AUDIO_ONLY: int := 0

  /** Call.answer(videoState), Call.reject(rejectWithMessage, textMessage), Call.disconnect(). */
  datatype Action =
    | Answer(videoState: int)
    | Reject(rejectWithMessage: bool, textMessage: Option<string>)
    | Disconnect

  /** One action that the app forwarded to one call. */
  datatype Forward = Forward(call: Call, action: Action)
}

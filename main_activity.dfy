/**
 * The hosting activity's part of the incoming-call flow (MainActivity.onCreate):
 * read the launch extras with their defaults, resolve the caller's name, show
 * the incoming-call screen, and wire its two callbacks to the registry.
 */
module Activity {
  import opened Wrappers
  import opened Telecom
  import opened Intents
  import opened Contacts
  import opened Registry
  import opened IncomingCall

  /** `getBooleanExtra("incoming_call", false)`: true only when the launch says so explicitly. */
  function IsIncomingCall(extras: Extras): (r: bool)
    ensures r <==> INCOMING_CALL in extras && extras[INCOMING_CALL] == BoolExtra(true)
  {
    GetBooleanExtra(extras, INCOMING_CALL, false)
  }

  /** `getStringExtra("phone_number") ?: "Unknown"`. */
  function PhoneNumber(extras: Extras): (r: string)
    ensures PHONE_NUMBER in extras && extras[PHONE_NUMBER].StringExtra? ==> r == extras[PHONE_NUMBER].stringValue
    ensures !(PHONE_NUMBER in extras && extras[PHONE_NUMBER].StringExtra?) ==> r == UNKNOWN
  {
    match GetStringExtra(extras, PHONE_NUMBER)
    case Some(n) => n
    case None => UNKNOWN
  }

  /** The screen onCreate sets as content for a launch: an unhandled incoming-call screen, or none (the dial pad). */
  function Present(extras: Extras, directory: Directory): (r: Option<ScreenState>)
    ensures r.Some? <==> IsIncomingCall(extras)
    ensures r.Some? ==> && !r.value.isCallHandled
                        && r.value.phoneNumber == PhoneNumber(extras)
                        && r.value.callerName == ContactName(directory(PhoneNumber(extras)))
  {
    if IsIncomingCall(extras) then
      var phoneNumber := PhoneNumber(extras);
      Some(ScreenState(ContactName(directory(phoneNumber)), phoneNumber, false))
    else
      None
  }

  /** The registry action each callback is wired to. */
  function Verb(cb: Callback): Action
  {
    match cb
    case OnAcceptCall => ANSWER_AUDIO_ONLY
    case OnRejectCall => REJECT_SILENTLY
  }

  class MainActivity {
    /** The process-wide registry. */
    const manager: CallManager
    /** The incoming-call screen set as content, or null when the dial pad is shown. */
    var screen: IncomingCallScreen?
    /** Whether finish() has been called. */
    var finishing: bool

    constructor (manager: CallManager)
      ensures this.manager == manager && screen == null && !finishing
    {
      this.manager := manager;
      screen := null;
      finishing := false;
    }

    method OnCreate(extras: Extras, directory: Directory)
      modifies this`screen
      ensures screen != null <==> IsIncomingCall(extras)
      ensures screen != null ==> fresh(screen) && screen.Valid() && screen.invoked == []
      ensures screen != null ==> Present(extras, directory) == Some(screen.State())
    {
      var isIncomingCall := GetBooleanExtra(extras, INCOMING_CALL, false);
      var phoneNumber := match GetStringExtra(extras, PHONE_NUMBER) case Some(n) => n case None => UNKNOWN;
      if isIncomingCall {
        var callerName := GetContactName(phoneNumber, directory);
        screen := new IncomingCallScreen(callerName, phoneNumber);
      } else {
        screen := null;
      }
    }

    /** The `onAcceptCall` lambda: accept through the registry, then finish. */
    method AcceptAndFinish()
      modifies manager`forwarded, this`finishing
      ensures manager.currentCall == old(manager.currentCall)
      ensures manager.forwarded == old(manager.forwarded) + Forwarded(manager.currentCall, Verb(Callback.OnAcceptCall))
      ensures finishing
    {
      manager.AcceptCall();
      finishing := true;
    }

    /** The `onRejectCall` lambda: reject through the registry, then finish. */
    method RejectAndFinish()
      modifies manager`forwarded, this`finishing
      ensures manager.currentCall == old(manager.currentCall)
      ensures manager.forwarded == old(manager.forwarded) + Forwarded(manager.currentCall, Verb(Callback.OnRejectCall))
      ensures finishing
    {
      manager.RejectCall();
      finishing := true;
    }

    /** A tap on the screen's accept button, with the callback it may fire. */
    method AcceptTapped()
      requires screen != null && screen.Valid()
      modifies screen, manager`forwarded, this`finishing
      ensures screen.Valid() && screen.isCallHandled
      ensures screen.invoked == old(screen.invoked) + Fires(old(screen.isCallHandled), Callback.OnAcceptCall)
      ensures manager.currentCall == old(manager.currentCall)
      ensures manager.forwarded == old(manager.forwarded) +
        if old(screen.isCallHandled) then [] else Forwarded(manager.currentCall, ANSWER_AUDIO_ONLY)
      ensures finishing == (old(finishing) || !old(screen.isCallHandled))
    {
      var fired := screen.TapAccept();
      if fired {
        AcceptAndFinish();
      }
    }

    /** A tap on the screen's reject button, with the callback it may fire. */
    method RejectTapped()
      requires screen != null && screen.Valid()
      modifies screen, manager`forwarded, this`finishing
      ensures screen.Valid() && screen.isCallHandled
      ensures screen.invoked == old(screen.invoked) + Fires(old(screen.isCallHandled), Callback.OnRejectCall)
      ensures manager.currentCall == old(manager.currentCall)
      ensures manager.forwarded == old(manager.forwarded) +
        if old(screen.isCallHandled) then [] else Forwarded(manager.currentCall, REJECT_SILENTLY)
      ensures finishing == (old(finishing) || !old(screen.isCallHandled))
    {
      var fired := screen.TapReject();
      if fired {
        RejectAndFinish();
      }
    }
  }
}

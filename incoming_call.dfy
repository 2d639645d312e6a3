/**
 * The incoming-call screen (IncomingCallScreen in MainActivity.kt): caller
 * identity, a status line, and two buttons guarded by a per-screen
 * `isCallHandled` flag so that at most one of the two callbacks ever fires.
 */
module IncomingCall {

  /** The two callbacks the screen is given by its host. */
  datatype Callback = OnAcceptCall | OnRejectCall

  /** What a screen shows and whether it has been handled. */
  datatype ScreenState = ScreenState(callerName: string, phoneNumber: string, isCallHandled: bool)

  const CALL_HANDLED: string := "Call Handled"
  const INCOMING_CALL_STATUS: string := "Incoming Call..."

  /** The callbacks one guarded tap invokes: `cb`, if the screen was not yet handled, and nothing otherwise. */
  function Fires(isCallHandled: bool, cb: Callback): (r: seq<Callback>)
    ensures |r| <= 1
    ensures r != [] <==> !isCallHandled
    ensures forall c :: c in r ==> c == cb
  {
    if isCallHandled then [] else [cb]
  }

  /** The status line under the number. */
  function StatusText(isCallHandled: bool): (r: string)
    ensures r == CALL_HANDLED <==> isCallHandled
    ensures r == INCOMING_CALL_STATUS <==> !isCallHandled
  {
    if isCallHandled then CALL_HANDLED else INCOMING_CALL_STATUS
  }

  /** The letter in the avatar circle: the name's first character, or "?" for an empty name. */
  function AvatarText(callerName: string): (r: string)
    ensures |r| == 1
    ensures callerName != [] ==> r[0] == callerName[0]
    ensures callerName == [] ==> r == "?"
  {
    if |callerName| > 0 then [callerName[0]] else "?"
  }

  /** The callbacks a sequence of taps on one screen invokes, from the given flag on. */
  function TapAll(isCallHandled: bool, taps: seq<Callback>): seq<Callback>
    decreases |taps|
  {
    if taps == [] then [] else Fires(isCallHandled, taps[0]) + TapAll(true, taps[1..])
  }

  /** Once handled, a screen ignores every further tap. */
  lemma {:induction false} HandledScreenIgnoresTaps(taps: seq<Callback>)
    ensures TapAll(true, taps) == []
  {
    if taps != [] {
      HandledScreenIgnoresTaps(taps[1..]);
    }
  }

  /**
   * However many taps arrive on a fresh screen, exactly the first one fires
   * its callback and no other callback fires at all.
   */
  lemma {:induction false} FirstTapOnlyFires(taps: seq<Callback>)
    ensures TapAll(false, taps) == if taps == [] then [] else [taps[0]]
  {
    if taps != [] {
      HandledScreenIgnoresTaps(taps[1..]);
    }
  }

  class IncomingCallScreen {
    const callerName: string
    const phoneNumber: string
    /** The `remember`ed flag, false on first composition. */
    var isCallHandled: bool
    /** The callbacks this screen has invoked, oldest first. */
    var invoked: seq<Callback>

    /** At most one callback, and one exactly when the screen is handled. */
    ghost predicate Valid()
      reads this
    {
      |invoked| <= 1 && (invoked == [] <==> !isCallHandled)
    }

    /** What the screen shows: its caller, its number and its status flag. */
    function State(): ScreenState
      reads this
    {
      ScreenState(callerName, phoneNumber, isCallHandled)
    }

    constructor (callerName: string, phoneNumber: string)
      ensures Valid()
      ensures this.callerName == callerName && this.phoneNumber == phoneNumber
      ensures !isCallHandled && invoked == []
    {
      this.callerName := callerName;
      this.phoneNumber := phoneNumber;
      isCallHandled := false;
      invoked := [];
    }

    /** The reject button: the first tap marks the screen handled and invokes onRejectCall. */
    method TapReject() returns (fired: bool)
      requires Valid()
      modifies this
      ensures Valid() && isCallHandled
      ensures fired == !old(isCallHandled)
      ensures invoked == old(invoked) + Fires(old(isCallHandled), OnRejectCall)
    {
      fired := false;
      if !isCallHandled {
        isCallHandled := true;
        invoked := invoked + [OnRejectCall];
        fired := true;
      }
    }

    /** The accept button: the first tap marks the screen handled and invokes onAcceptCall. */
    method TapAccept() returns (fired: bool)
      requires Valid()
      modifies this
      ensures Valid() && isCallHandled
      ensures fired == !old(isCallHandled)
      ensures invoked == old(invoked) + Fires(old(isCallHandled), OnAcceptCall)
    {
      fired := false;
      if !isCallHandled {
        isCallHandled := true;
        invoked := invoked + [OnAcceptCall];
        fired := true;
      }
    }
  }
}

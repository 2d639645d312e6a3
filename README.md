# CallDefenceApp call-handling core, in Dafny

A model of the incoming-call flow of a small Android dialer:

- the process-wide **call registry** (`CallManager`): one optional slot, and three verbs that forward
  one action to the call in the slot or do nothing when the slot is empty;
- the **call-lifecycle listener** (`CallService`): a call being added fills the slot and requests the
  incoming-call screen with the caller's identity; a call being removed empties the slot;
- the **incoming-call screen** (`IncomingCallScreen`): caller name, number, an avatar letter, a status
  line, and accept/reject buttons behind an `isCallHandled` guard;
- the **hosting activity** (`MainActivity.onCreate`): reads the launch extras with their defaults,
  resolves the caller's name through the contacts lookup, and wires accept to the registry's accept
  and reject to its reject, each followed by `finish()`;
- the **dial pad**: the twelve-key grid and the digit append.

A platform call is an opaque token with the handle from its details. The actions the app forwards to
calls (`answer(STATE_AUDIO_ONLY)`, `reject(false, null)`, `disconnect()`) are recorded in a log on the
registry and are not performed. The registry, listener, screen and activity are classes whose methods
change their fields. Each method's `ensures` gives its new state in terms of the old one through small
functions (`Forwarded`, `Fires`, `LaunchExtras`, `Present`, `ContactName`). Module `CallFlow` builds a
pure session model from the same functions, with events for a call added, a call removed, and a tap on
either button. Its lemmas hold over arbitrary event sequences: at most one action is forwarded per
added call; it goes only to the call most recently added; an empty slot absorbs every tap; a
disconnect is never forwarded. The class `CallFlow.Phone` wires the registry, the listener and a fresh
activity per launch together. Its `Abs()` reads those objects as a session, and each of its event
methods is proved to take exactly the step that `CallFlow.Step` describes. Its `Valid()` keeps every
object it created in a ghost set `Repr`, and each method changes only `Repr` and adds only new
objects to it, so events compose: `DispatchAll` delivers a whole event sequence and is proved to
take the objects to `Run` of it. `CallFlow.Drive` starts a new `Phone`, delivers the events, and
states the registry's log outright. Three further methods drive the objects through three
scenarios, and their `ensures` state the outcome: reject tapped twice, accept then reject, and a
call added then removed.

Files: `wrappers.dfy` (Option), `telecom.dfy` (calls and actions), `intents.dfy` (launch extras),
`call_manager.dfy`, `call_service.dfy`, `contacts.dfy`, `incoming_call.dfy`, `dial_pad.dfy`,
`main_activity.dfy`, `call_flow.dfy`.

Three behaviours of the code that the model keeps as written:

- The caller-name lookup falls back to the literal `"Unknown"`, not to the raw number.
- The lookup's result is not always non-empty. A contact whose stored display name is `""` yields
  `""`, and the avatar then shows `"?"` (`Contacts.ContactNameEmptyOnlyFromEmptyRow`).
- A removal empties the slot even when another call has since been added
  (`CallFlow.EarlierRemovalStrandsLaterCall`).

## Model

| member | source | states |
|---|---|---|
| `Registry.Forwarded` | app/src/main/java/workon/calldefenceapp/CallManager.kt:13-23 | `currentCall?.act()` forwards exactly one action when the slot holds a call and none when it is empty, and what it forwards goes to the held call with the given action |
| `Registry.CallManager.constructor` | app/src/main/java/workon/calldefenceapp/CallManager.kt:7 | the slot starts empty and nothing has been forwarded |
| `Registry.CallManager.SetCurrentCall` | app/src/main/java/workon/calldefenceapp/CallManager.kt:9-11 | the slot becomes the argument, including None, whatever it held; nothing is forwarded |
| `Registry.CallManager.AcceptCall` | app/src/main/java/workon/calldefenceapp/CallManager.kt:13-15 | appends one `Answer(STATE_AUDIO_ONLY)` for the held call, or nothing on an empty slot; the slot is not written |
| `Registry.CallManager.RejectCall` | app/src/main/java/workon/calldefenceapp/CallManager.kt:17-19 | appends one `Reject(false, None)` for the held call, or nothing on an empty slot; the slot is not written |
| `Registry.CallManager.EndCall` | app/src/main/java/workon/calldefenceapp/CallManager.kt:21-23 | appends one `Disconnect` for the held call, or nothing on an empty slot; the slot is not written |
| `Service.DisplayIdentity` | app/src/main/java/workon/calldefenceapp/CallService.kt:17 | the identity is the handle's scheme-specific part when the call has a handle with one, and `"Unknown"` otherwise |
| `Service.LaunchExtras` | app/src/main/java/workon/calldefenceapp/CallService.kt:14-19 | the launch request, read back by the activity, says incoming call = true and carries the display identity as the phone number |
| `Service.CallService.OnCallAdded` | app/src/main/java/workon/calldefenceapp/CallService.kt:9-20 | the slot holds the new call, overwriting any other; one launch request is appended; no action is forwarded |
| `Service.CallService.OnCallRemoved` | app/src/main/java/workon/calldefenceapp/CallService.kt:22-25 | the slot is empty afterwards, whichever call was removed and whatever the slot held; no action is forwarded |
| `Activity.IsIncomingCall` | app/src/main/java/workon/calldefenceapp/MainActivity.kt:162 | the launch is treated as incoming exactly when `incoming_call` is present and is the boolean true; absent means false |
| `Activity.PhoneNumber` | app/src/main/java/workon/calldefenceapp/MainActivity.kt:163 | the number is the stored `phone_number` string when there is one, and `"Unknown"` when it is absent |
| `Activity.MainActivity.OnCreate` | app/src/main/java/workon/calldefenceapp/MainActivity.kt:162-183 | an incoming-call launch shows a fresh, unhandled screen with the looked-up name and the number; any other launch shows no incoming-call screen |
| `Activity.MainActivity.AcceptAndFinish` | app/src/main/java/workon/calldefenceapp/MainActivity.kt:172-175 | the accept callback forwards the registry's accept to the held call (nothing if empty) and finishes the activity |
| `Activity.MainActivity.RejectAndFinish` | app/src/main/java/workon/calldefenceapp/MainActivity.kt:176-179 | the reject callback forwards the registry's reject to the held call (nothing if empty) and finishes the activity |
| `Activity.MainActivity.AcceptTapped` | app/src/main/java/workon/calldefenceapp/MainActivity.kt:479-484 | a tap on accept forwards one audio-only answer and finishes only if the screen was unhandled; afterwards the screen is handled and its invariant holds |
| `Activity.MainActivity.RejectTapped` | app/src/main/java/workon/calldefenceapp/MainActivity.kt:458-463 | a tap on reject forwards one silent reject and finishes only if the screen was unhandled; afterwards the screen is handled and its invariant holds |
| `Contacts.ContactName` | app/src/main/java/workon/calldefenceapp/MainActivity.kt:188-208 | the first result row's display name when there is one; `"Unknown"` for a failed query, a null cursor, no row, or a null name |
| `Contacts.GetContactName` | app/src/main/java/workon/calldefenceapp/MainActivity.kt:188-208 | the imperative lookup, with its local variable and caught exceptions, always returns, and returns `ContactName` of the query outcome |
| `Contacts.ContactNameEmptyOnlyFromEmptyRow` | app/src/main/java/workon/calldefenceapp/MainActivity.kt:199-203 | the name is empty if and only if the first row's stored name is the empty string; every fallback is non-empty |
| `IncomingCall.Fires` | app/src/main/java/workon/calldefenceapp/MainActivity.kt:459-461 | a guarded tap invokes at most one callback, the tapped one, and one exactly when the screen was not yet handled |
| `IncomingCall.StatusText` | app/src/main/java/workon/calldefenceapp/MainActivity.kt:442 | the status is "Call Handled" exactly when the screen is handled, and "Incoming Call..." exactly when it is not |
| `IncomingCall.AvatarText` | app/src/main/java/workon/calldefenceapp/MainActivity.kt:412 | one character: the name's first character, or "?" for an empty name |
| `IncomingCall.HandledScreenIgnoresTaps` | app/src/main/java/workon/calldefenceapp/MainActivity.kt:458-484 | once handled, any sequence of taps on either button invokes no callback |
| `IncomingCall.FirstTapOnlyFires` | app/src/main/java/workon/calldefenceapp/MainActivity.kt:458-484 | any sequence of taps on a fresh screen invokes exactly the first tap's callback and nothing else |
| `IncomingCall.IncomingCallScreen.constructor` | app/src/main/java/workon/calldefenceapp/MainActivity.kt:383 | a new screen holds its name and number, is unhandled and has invoked nothing |
| `IncomingCall.IncomingCallScreen.TapReject` | app/src/main/java/workon/calldefenceapp/MainActivity.kt:458-463 | the first tap sets the flag and invokes onRejectCall once; later taps change nothing; at most one callback ever (Valid) |
| `IncomingCall.IncomingCallScreen.TapAccept` | app/src/main/java/workon/calldefenceapp/MainActivity.kt:479-484 | the first tap sets the flag and invokes onAcceptCall once; later taps change nothing; at most one callback ever (Valid) |
| `DialPad.AppendKey` | app/src/main/java/workon/calldefenceapp/MainActivity.kt:278 | the old number is a prefix of the new one, the key follows it, and the length grows by the key's length |
| `DialPad.PressKeysAppendsLabels` | app/src/main/java/workon/calldefenceapp/MainActivity.kt:278 | pressing keys in order appends their labels in that order |
| `DialPad.PadKeysAddOneCharacterEach` | app/src/main/java/workon/calldefenceapp/MainActivity.kt:278 | each pad key adds one character and leaves the number already typed in place |
| `DialPad.LayOutGrid` | app/src/main/java/workon/calldefenceapp/MainActivity.kt:311-325 | the nested loops produce the keys row by row, three to a row, and the index guard keeps every read in bounds |
| `DialPad.RowMajorFlattens` | app/src/main/java/workon/calldefenceapp/MainActivity.kt:311-325 | read row after row, the grid is the key list itself: every index visited exactly once, in order |
| `DialPad.DialKeysRows` | app/src/main/java/workon/calldefenceapp/MainActivity.kt:300-305 | the twelve keys lay out as four rows of three: 1 2 3, 4 5 6, 7 8 9, * 0 # |
| `DialPad.DialPadGrid` | app/src/main/java/workon/calldefenceapp/MainActivity.kt:299-327 | the dial pad shows those four rows, and they hold all twelve keys in order |
| `CallFlow.RemovalEmptiesSlot` | app/src/main/java/workon/calldefenceapp/CallService.kt:24 | in the session, a removal empties the slot whatever it held and forwards nothing |
| `CallFlow.AdditionPresentsCall` | app/src/main/java/workon/calldefenceapp/CallService.kt:11-19 | in the session, where each launch starts a fresh activity, an addition holds the call, requests one launch, shows a fresh screen with the looked-up name and identity, and forwards nothing |
| `CallFlow.StepBudget` | app/src/main/java/workon/calldefenceapp/MainActivity.kt:458-484 | one event never shortens the log and forwards at most what the displayed screen still owes, with one more owed after an addition |
| `CallFlow.ForwardBudget` | app/src/main/java/workon/calldefenceapp/MainActivity.kt:458-484 | over any event sequence, forwarded actions plus what is still owed never exceed what was owed plus the screens brought up |
| `CallFlow.AtMostOneActionPerPresentation` | app/src/main/java/workon/calldefenceapp/MainActivity.kt:172-179 | from a fresh start, the number of forwarded actions never exceeds the number of calls added |
| `CallFlow.QuietRun` | app/src/main/java/workon/calldefenceapp/CallManager.kt:13-19 | while no call is added, the slot holds one call or nothing, and every new action goes to that call, is an answer or a reject, and is paid for by the screen |
| `CallFlow.OneActionPerDisplayedCall` | app/src/main/java/workon/calldefenceapp/MainActivity.kt:172-179 | after a call is added, taps and removals forward at most one action, only to that call, only answer or reject, and leave the earlier log intact |
| `CallFlow.EmptySlotForwardsNothing` | app/src/main/java/workon/calldefenceapp/CallManager.kt:13-19 | with an empty slot and no addition, any taps leave the log and the slot unchanged |
| `CallFlow.AddedThenRemovedForwardsNothing` | app/src/main/java/workon/calldefenceapp/CallService.kt:9-25 | a call added and then removed leaves the slot empty and forwards nothing, even with later taps |
| `CallFlow.NeverDisconnects` | app/src/main/java/workon/calldefenceapp/MainActivity.kt:172-179 | the flow never forwards a disconnect, because endCall is wired to no button |
| `CallFlow.EarlierRemovalStrandsLaterCall` | app/src/main/java/workon/calldefenceapp/CallService.kt:22-25 | removing an earlier call while a later one is displayed empties the slot; accepting the later call then forwards nothing |
| `CallFlow.Tap` | app/src/main/java/workon/calldefenceapp/MainActivity.kt:458-484 | a tap on the screen on display leaves slot and launches alone, marks the screen handled, invokes the tapped callback only if it was unhandled, and forwards at most one action: the wired verb, to the held call, only on the first tap |
| `CallFlow.Step` | app/src/main/java/workon/calldefenceapp/CallService.kt:9-25 | an addition holds the call, forwards nothing and shows an unhandled screen; a removal empties the slot and leaves log and screen; a tap keeps the slot; every new action goes to the call held before the event and is an answer or a reject |
| `Activity.Present` | app/src/main/java/workon/calldefenceapp/MainActivity.kt:166-183 | a screen is shown exactly for an incoming-call launch, unhandled, with the defaulted number and the name the lookup settles on |
| `CallFlow.RunAppend` | app/src/main/java/workon/calldefenceapp/CallService.kt:9-25 | running two event sequences one after the other is running their concatenation |
| `CallFlow.OneActionPerSegment` | app/src/main/java/workon/calldefenceapp/MainActivity.kt:172-179 | wherever an addition falls in a trace, the stretch from it to the next addition forwards at most one action, only to that call, only answer or reject, and keeps the earlier log |
| `CallFlow.Phone.constructor` | app/src/main/java/workon/calldefenceapp/CallManager.kt:7 | the wired objects are new and start as the initial session: empty slot, no log, no launch, no screen |
| `CallFlow.Phone.Added` | app/src/main/java/workon/calldefenceapp/CallService.kt:9-20 | `onCallAdded` followed by `onCreate` of the launched activity changes the objects exactly as the session step for an addition |
| `CallFlow.Phone.Removed` | app/src/main/java/workon/calldefenceapp/CallService.kt:22-25 | `onCallRemoved` changes the objects exactly as the session step for a removal |
| `CallFlow.Phone.Accept` | app/src/main/java/workon/calldefenceapp/MainActivity.kt:479-484 | a tap on accept, through the guard and the wiring, changes the objects exactly as the session step for that tap |
| `CallFlow.Phone.Reject` | app/src/main/java/workon/calldefenceapp/MainActivity.kt:458-463 | a tap on reject, through the guard and the wiring, changes the objects exactly as the session step for that tap |
| `CallFlow.Phone.Dispatch` | app/src/main/java/workon/calldefenceapp/CallService.kt:9-25 | any one event, delivered to the object that handles it, changes the objects exactly as the session step, touching only objects the phone owns |
| `CallFlow.RunSnoc` | app/src/main/java/workon/calldefenceapp/CallService.kt:9-25 | running one more event after a sequence is one more session step |
| `CallFlow.Phone.DispatchAll` | app/src/main/java/workon/calldefenceapp/CallService.kt:9-25 | delivering a sequence of events in order takes the objects to exactly the session `Run` predicts, and a second sequence can follow |
| `CallFlow.Drive` | app/src/main/java/workon/calldefenceapp/CallManager.kt:6-24 | a new phone driven by any events has forwarded exactly the actions `Run` predicts, no more of them than calls were added, and no disconnect |
| `CallFlow.RejectUnknownCallerTwice` | app/src/main/java/workon/calldefenceapp/MainActivity.kt:458-463 | with the real objects: unknown caller, reject tapped twice, so "Unknown" is shown, the status is "Call Handled", and exactly one silent reject is forwarded |
| `CallFlow.AcceptKnownCaller` | app/src/main/java/workon/calldefenceapp/MainActivity.kt:479-484 | with the real objects: known contact, accept then reject, so the name is shown and only one audio-only answer is forwarded |
| `CallFlow.AddedThenRemoved` | app/src/main/java/workon/calldefenceapp/CallService.kt:22-25 | with the real objects: a call added and removed, so the slot is empty and accept, reject and end then forward nothing |

## Left out

- What answer, reject and disconnect do inside the platform telephony stack: the model records them as
  log entries and does not perform them.
- The contacts query and the URI encoding of the number: an oracle stands in for them. It yields a
  failure, a null cursor, or the display-name column of the rows.
- `e.printStackTrace()` in the lookup's `catch`: it writes to the log and has no effect on the result.
- Intent flags, `startActivity` and `finish()`. A launch is recorded as its extras and a finish as a
  flag. Activity reuse is not modelled: each launch is taken to create a fresh activity and screen
  (`CallFlow.Step`, `CallFlow.Phone.Added`). Under `FLAG_ACTIVITY_NEW_TASK` and
  `FLAG_ACTIVITY_REORDER_TO_FRONT`, an activity that already exists comes to the front without a new
  `onCreate`, and the app has no `onNewIntent`. Two effects follow that the model does not capture.
  First, a second call added while the first call's screen is up leaves that screen showing the first
  caller, while the slot holds the second call, so a tap acts on the second call. Second, when the app
  is already open on the dial pad, no incoming-call screen appears at all. The trace lemmas'
  "only to the call most recently added" holds in the app too; "a fresh screen per added call" does not.
- Recreation of the activity on a configuration change, which would reset the `remember`ed flag.
- Compose's callbacks are closures that change the registry. Dafny cannot pass such closures, so a tap
  method returns whether it fired and the activity then runs the wired callback. Both steps form one
  method, `AcceptTapped` or `RejectTapped`.
- Threading: events are a sequential trace, as the platform serialises them on the main thread.
- Permission and default-dialer role negotiation and its dialogs and toasts; all layout and styling;
  the tab row, the call-log placeholder, the previews and the no-op call button. None of these has
  logic of its own.
- `AvatarText`: characters are Unicode scalar values, not the UTF-16 units Kotlin's `firstOrNull`
  returns. A name starting with a surrogate pair therefore shows its whole first character here.
- `LayOutGrid` takes the key list as a parameter; the source's list is the constant `DIAL_KEYS`,
  which `DialPadGrid` passes.

/**
 * The incoming-call flow end to end, over arbitrary sequences of events: the
 * platform adding and removing calls, and taps on the incoming-call screen's
 * buttons. Each event's effect is built from the same functions that the
 * registry, service, screen and activity classes are specified with, and the
 * class Phone at the end wires those objects together and is proved to take
 * exactly these steps. The lemmas state what holds after any such sequence:
 * at most one action per added call, only ever to the call most recently
 * added (each launch is taken to create a fresh screen).
 */
module CallFlow {
  import opened Wrappers
  import opened Telecom
  import opened Intents
  import opened Contacts
  import opened Registry
  import opened IncomingCall
  import opened Activity
  import opened Service

  datatype Event =
    | CallAdded(call: Call)     // InCallService.onCallAdded
    | CallRemoved(call: Call)   // InCallService.onCallRemoved
    | AcceptTapped              // a tap on the accept button of the screen on display
    | RejectTapped              // a tap on the reject button of the screen on display

  /**
   * The registry's slot and log, the launches requested so far, the screen on
   * display (if any) and the callbacks the screens invoked.
   */
  datatype Session = Session(
    currentCall: Option<Call>,
    forwarded: seq<Forward>,
    launched: seq<Extras>,
    screen: Option<ScreenState>,
    invoked: seq<Callback>)

  const INIT: Session := Session(None, [], [], None, [])

  /** A tap on the screen on display: the guard decides whether its callback, and with it the registry verb, runs. */
  function Tap(s: Session, cb: Callback): (t: Session)
    ensures t.currentCall == s.currentCall && t.launched == s.launched
    ensures s.screen.None? ==> t == s
    ensures s.screen.Some? ==> t.screen.Some? && t.screen.value.isCallHandled
    ensures t.invoked == s.invoked + if s.screen.Some? then Fires(s.screen.value.isCallHandled, cb) else []
    ensures s.forwarded <= t.forwarded && |t.forwarded| <= |s.forwarded| + 1
    ensures |t.forwarded| > |s.forwarded| ==>
              s.screen.Some? && !s.screen.value.isCallHandled && Some(t.forwarded[|s.forwarded|].call) == s.currentCall &&
              t.forwarded[|s.forwarded|].action == Verb(cb)
  {
    match s.screen
    case None => s
    case Some(sc) =>
      var fired := Fires(sc.isCallHandled, cb);
      s.(screen := Some(sc.(isCallHandled := true)),
         invoked := s.invoked + fired,
         forwarded := s.forwarded + if fired == [] then [] else Forwarded(s.currentCall, Verb(cb)))
  }

  /**
   * One event. A launch brings up a fresh screen for the launched extras; a
   * removal empties the slot but leaves the screen on display.
   */
  function Step(s: Session, e: Event, directory: Directory): (t: Session)
    ensures s.forwarded <= t.forwarded
    ensures e.CallAdded? ==> t.currentCall == Some(e.call) && t.forwarded == s.forwarded
    ensures e.CallAdded? ==> t.screen.Some? && !t.screen.value.isCallHandled
    ensures e.CallRemoved? ==> t.currentCall == None && t.forwarded == s.forwarded && t.screen == s.screen
    ensures (e.AcceptTapped? || e.RejectTapped?) ==> t.currentCall == s.currentCall && t.launched == s.launched
    ensures forall i :: |s.forwarded| <= i < |t.forwarded| ==>
              Some(t.forwarded[i].call) == s.currentCall && FromScreen(t.forwarded[i].action)
  {
    match e
    case CallAdded(c) =>
      var extras := LaunchExtras(c);
      s.(currentCall := Some(c), launched := s.launched + [extras], screen := Present(extras, directory))
    case CallRemoved(_) => s.(currentCall := None)
    case AcceptTapped => Tap(s, OnAcceptCall)
    case RejectTapped => Tap(s, OnRejectCall)
  }

  function Run(s: Session, events: seq<Event>, directory: Directory): Session
    decreases |events|
  {
    if events == [] then s else Run(Step(s, events[0], directory), events[1..], directory)
  }

  /** Running two sequences of events one after the other is running their concatenation. */
  lemma {:induction false} RunAppend(s: Session, first: seq<Event>, second: seq<Event>, directory: Directory)
    ensures Run(s, first + second, directory) == Run(Run(s, first, directory), second, directory)
    decreases |first|
  {
    if first != [] {
      assert (first + second)[1..] == first[1..] + second;
      RunAppend(Step(s, first[0], directory), first[1..], second, directory);
    } else {
      assert first + second == second;
    }
  }

  /** The actions still to come from the screen on display: one while it is unhandled, none after. */
  function Pending(s: Session): nat
  {
    if s.screen.Some? && !s.screen.value.isCallHandled then 1 else 0
  }

  /** The number of screens a sequence of events brings up. */
  function Presentations(events: seq<Event>): nat
  {
    if events == [] then 0 else (if events[0].CallAdded? then 1 else 0) + Presentations(events[1..])
  }

  /** The only actions the screen can forward: answer with audio only, or reject without a message. */
  predicate FromScreen(a: Action)
  {
    a == ANSWER_AUDIO_ONLY || a == REJECT_SILENTLY
  }

  /** A removal leaves the slot empty, whatever it held, and forwards nothing. */
  lemma RemovalEmptiesSlot(s: Session, c: Call, directory: Directory)
    ensures Step(s, CallRemoved(c), directory).currentCall == None
    ensures Step(s, CallRemoved(c), directory).forwarded == s.forwarded
  {
  }

  /** An addition fills the slot with the new call, asks for an incoming-call launch, shows a fresh screen, and forwards nothing. */
  lemma AdditionPresentsCall(s: Session, c: Call, directory: Directory)
    ensures var t := Step(s, CallAdded(c), directory);
      && t.currentCall == Some(c)
      && t.forwarded == s.forwarded
      && t.launched == s.launched + [LaunchExtras(c)]
      && t.screen == Some(ScreenState(ContactName(directory(DisplayIdentity(c))), DisplayIdentity(c), false))
  {
  }

  /** One event forwards at most what the screen on display still owes, and an addition owes one more. */
  lemma StepBudget(s: Session, e: Event, directory: Directory)
    ensures var t := Step(s, e, directory);
      && s.forwarded <= t.forwarded
      && |t.forwarded| + Pending(t) <= |s.forwarded| + Pending(s) + (if e.CallAdded? then 1 else 0)
  {
  }

  /** Over any sequence of events, the actions forwarded never outnumber the screens brought up. */
  lemma {:induction false} ForwardBudget(s: Session, events: seq<Event>, directory: Directory)
    ensures var t := Run(s, events, directory);
      && s.forwarded <= t.forwarded
      && |t.forwarded| + Pending(t) <= |s.forwarded| + Pending(s) + Presentations(events)
    decreases |events|
  {
    if events != [] {
      StepBudget(s, events[0], directory);
      ForwardBudget(Step(s, events[0], directory), events[1..], directory);
    }
  }

  /** From a fresh start, at most one action is forwarded per displayed call. */
  lemma AtMostOneActionPerPresentation(events: seq<Event>, directory: Directory)
    ensures |Run(INIT, events, directory).forwarded| <= Presentations(events)
  {
    ForwardBudget(INIT, events, directory);
  }

  predicate Quiet(events: seq<Event>)
  {
    forall i :: 0 <= i < |events| ==> !events[i].CallAdded?
  }

  /**
   * While no further call is added, the slot holds `c` or nothing, and every
   * action forwarded goes to `c`, is one the screen can forward, and is paid
   * for by the screen on display.
   */
  lemma {:induction false} QuietRun(s: Session, c: Call, events: seq<Event>, directory: Directory)
    requires Quiet(events)
    requires s.currentCall == None || s.currentCall == Some(c)
    ensures var t := Run(s, events, directory);
      && (t.currentCall == None || t.currentCall == Some(c))
      && s.forwarded <= t.forwarded
      && |t.forwarded| + Pending(t) <= |s.forwarded| + Pending(s)
      && forall i :: |s.forwarded| <= i < |t.forwarded| ==>
           t.forwarded[i].call == c && FromScreen(t.forwarded[i].action)
    decreases |events|
  {
    if events != [] {
      var s' := Step(s, events[0], directory);
      assert Quiet(events[1..]) by {
        forall i | 0 <= i < |events[1..]| ensures !events[1..][i].CallAdded? {
          assert events[1..][i] == events[i + 1];
        }
      }
      QuietRun(s', c, events[1..], directory);
    }
  }

  /**
   * After `c` is added, any sequence of taps and removals (and no further
   * addition) forwards at most one action, to `c` and to no earlier call, and
   * that action is an answer or a reject; the earlier log is left as it was.
   */
  lemma OneActionPerDisplayedCall(s: Session, c: Call, events: seq<Event>, directory: Directory)
    requires Quiet(events)
    ensures var t := Run(Step(s, CallAdded(c), directory), events, directory);
      && s.forwarded <= t.forwarded
      && |t.forwarded| <= |s.forwarded| + 1
      && forall i :: |s.forwarded| <= i < |t.forwarded| ==>
           t.forwarded[i].call == c && FromScreen(t.forwarded[i].action)
  {
    QuietRun(Step(s, CallAdded(c), directory), c, events, directory);
  }

  /**
   * Every stretch of the trace between one addition and the next, wherever it
   * falls, forwards at most one action, and only to the call added at its start.
   */
  lemma OneActionPerSegment(s: Session, before: seq<Event>, c: Call, after: seq<Event>, directory: Directory)
    requires Quiet(after)
    ensures var t0, t := Run(s, before, directory), Run(s, before + [CallAdded(c)] + after, directory);
      && t0.forwarded <= t.forwarded
      && |t.forwarded| <= |t0.forwarded| + 1
      && forall i :: |t0.forwarded| <= i < |t.forwarded| ==>
           t.forwarded[i].call == c && FromScreen(t.forwarded[i].action)
  {
    var t0 := Run(s, before, directory);
    RunAppend(s, before + [CallAdded(c)], after, directory);
    RunAppend(s, before, [CallAdded(c)], directory);
    assert Run(t0, [CallAdded(c)], directory) == Step(t0, CallAdded(c), directory);
    OneActionPerDisplayedCall(t0, c, after, directory);
  }

  /** With the slot empty and no call added, nothing is ever forwarded, however many taps arrive. */
  lemma {:induction false} EmptySlotForwardsNothing(s: Session, events: seq<Event>, directory: Directory)
    requires Quiet(events)
    requires s.currentCall == None
    ensures Run(s, events, directory).currentCall == None
    ensures Run(s, events, directory).forwarded == s.forwarded
    decreases |events|
  {
    if events != [] {
      assert Quiet(events[1..]) by {
        forall i | 0 <= i < |events[1..]| ensures !events[1..][i].CallAdded? {
          assert events[1..][i] == events[i + 1];
        }
      }
      EmptySlotForwardsNothing(Step(s, events[0], directory), events[1..], directory);
    }
  }

  /**
   * A call added and then removed before any tap ends with the slot empty and
   * no action forwarded to it, even if taps reach the screen afterwards.
   */
  lemma AddedThenRemovedForwardsNothing(s: Session, c: Call, events: seq<Event>, directory: Directory)
    requires Quiet(events)
    ensures var t := Run(Step(Step(s, CallAdded(c), directory), CallRemoved(c), directory), events, directory);
      t.currentCall == None && t.forwarded == s.forwarded
  {
    EmptySlotForwardsNothing(Step(Step(s, CallAdded(c), directory), CallRemoved(c), directory), events, directory);
  }

  /** The screen never ends a call: no sequence of events forwards a disconnect. */
  lemma {:induction false} NeverDisconnects(s: Session, events: seq<Event>, directory: Directory)
    requires forall f :: f in s.forwarded ==> f.action != Disconnect
    ensures forall f :: f in Run(s, events, directory).forwarded ==> f.action != Disconnect
    decreases |events|
  {
    if events != [] {
      NeverDisconnects(Step(s, events[0], directory), events[1..], directory);
    }
  }

  /**
   * Overlapping calls: when an earlier call is removed while a later one is on
   * display, the slot is emptied all the same, and accepting the later call on
   * its screen then reaches no call at all.
   */
  lemma EarlierRemovalStrandsLaterCall(a: Call, b: Call, directory: Directory)
    ensures var t := Run(INIT, [CallAdded(a), CallAdded(b), CallRemoved(a), AcceptTapped], directory);
      t.currentCall == None && t.forwarded == [] && t.invoked == [OnAcceptCall]
  {
    var events := [CallAdded(a), CallAdded(b), CallRemoved(a), AcceptTapped];
    var s1 := Step(INIT, CallAdded(a), directory);
    var s2 := Step(s1, CallAdded(b), directory);
    var s3 := Step(s2, CallRemoved(a), directory);
    assert s2.screen.Some? && !s2.screen.value.isCallHandled;
    assert Run(INIT, events, directory) == Run(s1, events[1..], directory);
    assert events[1..][1..] == [CallRemoved(a), AcceptTapped];
    assert Run(s1, events[1..], directory) == Run(s3, [AcceptTapped], directory);
  }

  /**
   * The objects wired together: a call with no contact match is added, the
   * activity is created from the launch, and reject is tapped twice. The
   * screen shows "Unknown" and the number, and exactly one silent reject reaches
   * the call.
   */
  method RejectUnknownCallerTwice(h: Call, directory: Directory)
    returns (forwarded: seq<Forward>, shown: ScreenState, status: string)
    requires directory(DisplayIdentity(h)) == Rows([])
    ensures forwarded == [Forward(h, REJECT_SILENTLY)]
    ensures shown == ScreenState(UNKNOWN, DisplayIdentity(h), true)
    ensures status == CALL_HANDLED
  {
    var manager := new CallManager();
    var service := new CallService(manager);
    service.OnCallAdded(h);
    var activity := new MainActivity(manager);
    activity.OnCreate(service.launched[0], directory);
    activity.RejectTapped();
    activity.RejectTapped();
    forwarded := manager.forwarded;
    shown := activity.screen.State();
    status := StatusText(activity.screen.isCallHandled);
  }

  /**
   * A call from a known contact is added and accept is tapped, then reject: the
   * screen shows the contact's name and only the audio-only answer is forwarded.
   */
  method AcceptKnownCaller(h: Call, name: string, directory: Directory)
    returns (forwarded: seq<Forward>, shown: ScreenState)
    requires directory(DisplayIdentity(h)) == Rows([Some(name)])
    ensures forwarded == [Forward(h, ANSWER_AUDIO_ONLY)]
    ensures shown == ScreenState(name, DisplayIdentity(h), true)
  {
    var manager := new CallManager();
    var service := new CallService(manager);
    service.OnCallAdded(h);
    var activity := new MainActivity(manager);
    activity.OnCreate(service.launched[0], directory);
    activity.AcceptTapped();
    activity.RejectTapped();
    forwarded := manager.forwarded;
    shown := activity.screen.State();
  }

  /** A call added and removed with no tap between: the slot ends empty and the verbs that follow reach no call. */
  method AddedThenRemoved(h: Call) returns (forwarded: seq<Forward>, slot: Option<Call>)
    ensures forwarded == [] && slot == None
  {
    var manager := new CallManager();
    var service := new CallService(manager);
    service.OnCallAdded(h);
    service.OnCallRemoved(h);
    manager.AcceptCall();
    manager.RejectCall();
    manager.EndCall();
    forwarded, slot := manager.forwarded, manager.currentCall;
  }

  /** Running one more event is one more step. */
  lemma RunSnoc(s: Session, events: seq<Event>, e: Event, directory: Directory)
    ensures Run(s, events + [e], directory) == Step(Run(s, events, directory), e, directory)
  {
    RunAppend(s, events, [e], directory);
  }

  /**
   * The app's objects wired as the platform drives them: one registry shared
   * by the listener and the activity, and a fresh activity created for each
   * launch the listener requests. Abs() reads the objects as a Session, and
   * each event method is proved to take exactly the step Step describes;
   * DispatchAll carries this over a whole sequence of events, so every lemma
   * above about Run holds of the objects driven by that sequence.
   */
  class Phone {
    const manager: CallManager
    const service: CallService
    /** The contacts provider the activity looks names up in. */
    const directory: Directory
    /** The activity created for the latest launch (before any launch, one that shows no screen). */
    var activity: MainActivity
    /**
     * Every callback any screen has invoked, oldest first; the screen on
     * display's own log is the latest part of it.
     */
    ghost var invoked: seq<Callback>
    /** The objects this Phone has created: the registry, the listener, every activity and screen. */
    ghost var Repr: set<object>

    ghost predicate Valid()
      reads this, Repr
    {
      && this in Repr && manager in Repr && service in Repr && activity in Repr
      && (activity.screen != null ==> activity.screen in Repr)
      && service.manager == manager
      && activity.manager == manager
      && (activity.screen != null ==> activity.screen.Valid() && IsSuffix(activity.screen.invoked, invoked))
    }

    ghost function Abs(): Session
      reads this, manager, service, activity, activity.screen
    {
      Session(manager.currentCall, manager.forwarded, service.launched,
              if activity.screen == null then None else Some(activity.screen.State()),
              invoked)
    }

    constructor (directory: Directory)
      ensures Valid() && fresh(Repr) && Abs() == INIT && this.directory == directory
    {
      var registry := new CallManager();
      manager := registry;
      service := new CallService(registry);
      this.directory := directory;
      activity := new MainActivity(registry);
      invoked := [];
      new;
      Repr := {this, manager, service, activity};
    }

    /** onCallAdded, then onCreate of the activity the launch starts. */
    method Added(c: Call)
      requires Valid()
      modifies Repr
      ensures Valid() && fresh(Repr - old(Repr))
      ensures Abs() == Step(old(Abs()), Event.CallAdded(c), directory)
    {
      service.OnCallAdded(c);
      activity := new MainActivity(manager);
      activity.OnCreate(service.launched[|service.launched| - 1], directory);
      Repr := Repr + {activity} + (if activity.screen == null then {} else {activity.screen});
    }

    /** onCallRemoved; the screen on display stays up. */
    method Removed(c: Call)
      requires Valid()
      modifies Repr
      ensures Valid() && fresh(Repr - old(Repr))
      ensures Abs() == Step(old(Abs()), Event.CallRemoved(c), directory)
    {
      service.OnCallRemoved(c);
    }

    /** A tap on the accept button of the screen on display, if there is one. */
    method Accept()
      requires Valid()
      modifies Repr
      ensures Valid() && fresh(Repr - old(Repr))
      ensures Abs() == Step(old(Abs()), Event.AcceptTapped, directory)
    {
      if activity.screen != null {
        ghost var handled := activity.screen.isCallHandled;
        activity.AcceptTapped();
        invoked := invoked + Fires(handled, OnAcceptCall);
      }
    }

    /** A tap on the reject button of the screen on display, if there is one. */
    method Reject()
      requires Valid()
      modifies Repr
      ensures Valid() && fresh(Repr - old(Repr))
      ensures Abs() == Step(old(Abs()), Event.RejectTapped, directory)
    {
      if activity.screen != null {
        ghost var handled := activity.screen.isCallHandled;
        activity.RejectTapped();
        invoked := invoked + Fires(handled, OnRejectCall);
      }
    }

    /** One event, delivered to the object that handles it. */
    method Dispatch(e: Event)
      requires Valid()
      modifies Repr
      ensures Valid() && fresh(Repr - old(Repr))
      ensures Abs() == Step(old(Abs()), e, directory)
    {
      match e
      case CallAdded(c) => Added(c);
      case CallRemoved(c) => Removed(c);
      case AcceptTapped => Accept();
      case RejectTapped => Reject();
    }

    /** The events, in order, each delivered to the object that handles it. */
    method DispatchAll(events: seq<Event>)
      requires Valid()
      modifies Repr
      ensures Valid() && fresh(Repr - old(Repr))
      ensures Abs() == Run(old(Abs()), events, directory)
    {
      ghost var s0 := Abs();
      var i := 0;
      while i < |events|
        invariant 0 <= i <= |events|
        invariant Valid() && fresh(Repr - old(Repr))
        invariant Abs() == Run(s0, events[..i], directory)
      {
        RunSnoc(s0, events[..i], events[i], directory);
        Dispatch(events[i]);
        assert events[..i + 1] == events[..i] + [events[i]];
        i := i + 1;
      }
      assert events[..i] == events;
    }
  }

  /** Whether `tail` ends `whole`. */
  ghost predicate IsSuffix<T>(tail: seq<T>, whole: seq<T>)
  {
    |tail| <= |whole| && whole[|whole| - |tail|..] == tail
  }

  /**
   * A new Phone driven by the events: the registry's log is what Run
   * predicts, actions never outnumber the calls added, and none is a
   * disconnect.
   */
  method Drive(directory: Directory, events: seq<Event>) returns (forwarded: seq<Forward>)
    ensures forwarded == Run(INIT, events, directory).forwarded
    ensures |forwarded| <= Presentations(events)
    ensures forall f :: f in forwarded ==> f.action != Disconnect
  {
    var phone := new Phone(directory);
    phone.DispatchAll(events);
    forwarded := phone.manager.forwarded;
    AtMostOneActionPerPresentation(events, directory);
    NeverDisconnects(INIT, events, directory);
  }
}

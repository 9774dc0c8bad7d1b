/** Notes that collect events, and the notifications they hold on screen
    (Source/Notifications/Push notifications/Notification Types/ZMLocalNotificationForEvent.swift and
    ZMLocalNotificationForMessageEvent.swift).

    What an event contains is reduced to the decisions the notes take on it: whether it may be added,
    whether a notification can be created for it and whether one is shown. A notification is numbered by
    the order of its creation.
 */
module NotificationBundling {

  const MAXIMUM_EVENTS_BEFORE_BUNDLING := 5

  /** Only message notes copy notifications over; a call note that is joined also drops its events. */
  datatype Kind = MessageNote | OtherNote

  datatype Event = Event(canAdd: bool, canCreate: bool, shown: bool, dropsEvents: bool)

  /** The number of events and the notifications a note holds. */
  datatype Note = Note(kind: Kind, events: nat, notifications: seq<nat>)

  /** How many notifications were created so far, and which of them were cancelled. */
  datatype Screen = Screen(created: nat, cancelled: set<nat>)

  predicate ShouldCopyNotifications(kind: Kind, events: nat) {
    kind == MessageNote && events < MAXIMUM_EVENTS_BEFORE_BUNDLING + 1
  }

  function Elements(s: seq<nat>): set<nat> {
    set i | 0 <= i < |s| :: s[i]
  }

  /** The note after an event: the same one, with the event counted even if no copy could be made, or its copy. */
  function Added(note: Note, screen: Screen, e: Event): (Note, Screen) {
    if !e.canAdd then (note, screen)
    else if !e.canCreate then (note.(events := note.events + 1), screen)
    else
      var events := if e.dropsEvents then 0 else note.events + 1;
      var own := if e.shown then [screen.created] else [];
      var screen' := screen.(created := screen.created + |own|);
      if ShouldCopyNotifications(note.kind, events) then (Note(note.kind, events, note.notifications + own), screen')
      else (Note(note.kind, events, own), screen'.(cancelled := screen.cancelled + Elements(note.notifications)))
  }

  class Application {
    var created: nat
    var cancelled: set<nat>

    constructor ()
      ensures created == 0 && cancelled == {}
    {
      created, cancelled := 0, {};
    }

    ghost function State(): Screen
      reads this
    {
      Screen(created, cancelled)
    }

    method NewNotification() returns (n: nat)
      modifies this
      ensures n == old(created) && State() == Screen(old(created) + 1, old(cancelled))
    {
      n := created;
      created := created + 1;
    }

    method CancelLocalNotification(n: nat)
      modifies this
      ensures State() == Screen(old(created), old(cancelled) + {n})
    {
      cancelled := cancelled + {n};
    }
  }

  class ZMLocalNotificationForEvent {
    const kind: Kind
    const application: Application
    var events: nat
    var notifications: seq<nat>

    ghost function State(): Note
      reads this
    {
      Note(kind, events, notifications)
    }

    /** The failable initialiser once creation is allowed. */
    constructor (kind: Kind, application: Application, events: nat, notifications: seq<nat>)
      ensures this.kind == kind && this.application == application
                && this.events == events && this.notifications == notifications
    {
      this.kind, this.application, this.events, this.notifications := kind, application, events, notifications;
    }

    method CancelNotifications()
      modifies application
      ensures application.State()
                == Screen(old(application.created), old(application.cancelled) + Elements(notifications))
    {
      var i := 0;
      while i < |notifications|
        invariant 0 <= i <= |notifications|
        invariant application.State()
                  == Screen(old(application.created), old(application.cancelled) + Elements(notifications[..i]))
      {
        application.CancelLocalNotification(notifications[i]);
        assert notifications[..i + 1] == notifications[..i] + [notifications[i]];
        ElementsSnoc(notifications[..i], notifications[i]);
        i := i + 1;
      }
      assert notifications[..i] == notifications;
    }

    /** The copy with the event added, or null; either way the event is counted once it may be added. */
    method CopyByAddingEvent(e: Event) returns (note: ZMLocalNotificationForEvent?)
      modifies this`events, application
      ensures note == null <==> !e.canAdd || !e.canCreate
      ensures note == null ==> (State(), application.State()) == Added(old(State()), old(application.State()), e)
      ensures note != null ==> fresh(note) && note.application == application
      ensures note != null ==> notifications == old(notifications) && events == old(events) + 1
      ensures note != null ==> (note.State(), application.State()) == Added(old(State()), old(application.State()), e)
    {
      if !e.canAdd {
        return null;
      }
      events := events + 1;
      if !e.canCreate {
        return null;
      }
      var own: seq<nat> := [];
      if e.shown {
        var n := application.NewNotification();
        own := [n];
      }
      note := new ZMLocalNotificationForEvent(kind, application, if e.dropsEvents then 0 else events, own);
      if ShouldCopyNotifications(note.kind, note.events) {
        note.notifications := notifications + note.notifications;
      } else {
        CancelNotifications();
      }
    }
  }

  lemma ElementsSnoc(s: seq<nat>, n: nat)
    ensures Elements(s + [n]) == Elements(s) + {n}
  {
    forall x | x in Elements(s) ensures x in Elements(s + [n]) {
      var i :| 0 <= i < |s| && s[i] == x;
      assert (s + [n])[i] == x;
    }
    assert (s + [n])[|s|] == n;
  }

  // ----- Whole chains

  /** What an event does to a note: an event that may not be added nothing; one that no notification may be created for
      is counted; a copy holds its own notification, and those of the note exactly for messages up to the fifth event,
      beyond which they are cancelled. */
  lemma AddedEffect(note: Note, screen: Screen, e: Event)
    ensures var (note', screen') := Added(note, screen, e);
            var own := if e.shown then [screen.created] else [];
            && note'.kind == note.kind
            && (!e.canAdd ==> note' == note && screen' == screen)
            && (e.canAdd && !e.canCreate ==> note' == note.(events := note.events + 1) && screen' == screen)
            && (e.canAdd && e.canCreate ==>
                  && note'.events == (if e.dropsEvents then 0 else note.events + 1)
                  && screen'.created == screen.created + |own|
                  && if note.kind == MessageNote && note'.events <= 5
                     then note'.notifications == note.notifications + own && screen'.cancelled == screen.cancelled
                     else && note'.notifications == own
                          && forall n :: n in screen'.cancelled <==> n in screen.cancelled || n in note.notifications)
  {
    var cancelled := Elements(note.notifications);
    assert forall n :: n in cancelled <==> n in note.notifications;
  }

  /** A chain begins with the note made for its first event. */
  function Chain(kind: Kind, shown: bool, events: seq<Event>): (Note, Screen) {
    if events == [] then (Note(kind, 1, if shown then [0] else []), Screen(if shown then 1 else 0, {}))
    else
      var (note, screen) := Chain(kind, shown, events[..|events| - 1]);
      Added(note, screen, events[|events| - 1])
  }

  /** Every notification created is held by the note or cancelled, and not both; none is held twice. */
  ghost predicate Accounted(note: Note, screen: Screen) {
    && (forall n :: n in screen.cancelled || n in note.notifications <==> 0 <= n < screen.created)
    && (forall n :: n in screen.cancelled ==> n !in note.notifications)
    && (forall i, j :: 0 <= i < j < |note.notifications| ==> note.notifications[i] < note.notifications[j])
  }

  lemma AddedAccounted(note: Note, screen: Screen, e: Event)
    requires Accounted(note, screen)
    ensures var (note', screen') := Added(note, screen, e); Accounted(note', screen')
  {
    assert forall n :: n in Elements(note.notifications) <==> n in note.notifications;
    forall i | 0 <= i < |note.notifications| ensures note.notifications[i] < screen.created {
      assert note.notifications[i] in note.notifications;
    }
  }

  /** No notification is ever left on screen that its note does not know, in any chain of any kind of note. */
  lemma {:induction false} ChainAccounted(kind: Kind, shown: bool, events: seq<Event>)
    ensures var (note, screen) := Chain(kind, shown, events); Accounted(note, screen) && note.kind == kind
    decreases events
  {
    if events != [] {
      var init := events[..|events| - 1];
      ChainAccounted(kind, shown, init);
      var (note, screen) := Chain(kind, shown, init);
      AddedAccounted(note, screen, events[|events| - 1]);
    }
  }

  ghost predicate IsMessageEvent(e: Event) {
    e.shown && !e.dropsEvents
  }

  /** A message note holds at least one notification and never more than five, nor more than it has events;
      a successful copy past the fifth event holds only its own. */
  lemma {:induction false} MessagesAreBundled(events: seq<Event>)
    requires forall i :: 0 <= i < |events| ==> IsMessageEvent(events[i])
    ensures var (note, screen) := Chain(MessageNote, true, events);
            && 1 <= |note.notifications| <= MAXIMUM_EVENTS_BEFORE_BUNDLING
            && |note.notifications| <= note.events && note.kind == MessageNote
            && (events != [] && note.events > MAXIMUM_EVENTS_BEFORE_BUNDLING
                && events[|events| - 1].canAdd && events[|events| - 1].canCreate ==>
                  note.notifications == [screen.created - 1])
  {
    if events != [] {
      MessagesAreBundled(events[..|events| - 1]);
    }
  }

  /** If every event can be added and shown, the first five events keep their notifications side by side and every
      later one stands alone. */
  lemma {:induction false} BundledFromTheSixth(events: seq<Event>)
    requires forall i :: 0 <= i < |events| ==> IsMessageEvent(events[i]) && events[i].canAdd && events[i].canCreate
    ensures var (note, screen) := Chain(MessageNote, true, events);
            && note.kind == MessageNote && note.events == screen.created == |events| + 1
            && |note.notifications| == if |events| + 1 <= 5 then |events| + 1 else 1
  {
    if events != [] {
      var init := events[..|events| - 1];
      BundledFromTheSixth(init);
      var (note, screen) := Chain(MessageNote, true, init);
      AddedEffect(note, screen, events[|events| - 1]);
    }
  }
}

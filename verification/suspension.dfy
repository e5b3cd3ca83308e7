/**
 Visibility suspension. Hiding the page arms a timer whose firing stops
 inbound delivery; showing the page resumes delivery and cancels the timer
 held in the single handle slot. Every hidden notification arms a new timer
 and overwrites the slot, so an earlier timer that is still armed can no
 longer be cancelled and fires later.
 */
module Suspension {
  import opened Wrappers

  type TimerId = nat

  /**
   `stopUpdates` is the delivery-suspended flag, `slot` the one timer handle
   the client keeps, `armed` every timer that is scheduled and has neither
   fired nor been cancelled, and `nextTimer` the identity of the next timer.
   */
  datatype Timers = Timers(stopUpdates: bool, slot: Option<TimerId>, armed: set<TimerId>, nextTimer: TimerId)

  /** Timer identities are handed out in increasing order. */
  ghost predicate Valid(s: Timers) {
    && (forall t :: t in s.armed ==> t < s.nextTimer)
    && (s.slot.Some? ==> s.slot.value < s.nextTimer)
  }

  /** Delivering, with no timer ever armed. */
  function Idle(): (s: Timers)
    ensures Valid(s) && !s.stopUpdates && s.armed == {}
  {
    Timers(false, None, {}, 0)
  }

  /** The page became hidden: a fresh timer is armed and takes the slot. */
  function Hidden(s: Timers): (r: Timers)
    ensures Valid(s) ==> Valid(r) && s.nextTimer !in s.armed
    ensures r.armed == s.armed + {s.nextTimer}
    ensures r.slot == Some(s.nextTimer) && r.nextTimer > s.nextTimer
    ensures r.stopUpdates == s.stopUpdates
  {
    Timers(s.stopUpdates, Some(s.nextTimer), s.armed + {s.nextTimer}, s.nextTimer + 1)
  }

  /**
   Timer `t` fires. An armed timer suspends delivery and empties the slot,
   whichever timer the slot held; a cancelled or already fired timer does
   nothing.
   */
  function Fire(s: Timers, t: TimerId): (r: Timers)
    ensures Valid(s) ==> Valid(r)
    ensures t in s.armed ==> r.stopUpdates && r.slot == None && r.armed == s.armed - {t} && r.nextTimer == s.nextTimer
    ensures t !in s.armed ==> r == s
  {
    if t in s.armed then Timers(true, None, s.armed - {t}, s.nextTimer) else s
  }

  /**
   The page became visible. The flag says whether the suspension warning is
   due: only when delivery was suspended and the connection has not failed.
   Delivery resumes unconditionally and the timer in the slot is cancelled;
   the slot keeps its (now cancelled) handle.
   */
  function Visible(s: Timers, errored: bool): (r: (Timers, bool))
    ensures r.1 <==> s.stopUpdates && !errored
    ensures !r.0.stopUpdates
    ensures s.slot.Some? ==> r.0.armed == s.armed - {s.slot.value}
    ensures s.slot.None? ==> r.0.armed == s.armed
    ensures r.0.slot == s.slot && r.0.nextTimer == s.nextTimer
    ensures Valid(s) ==> Valid(r.0)
  {
    var cancelled := if s.slot.Some? then s.armed - {s.slot.value} else s.armed;
    (s.(stopUpdates := false, armed := cancelled), s.stopUpdates && !errored)
  }

  /**
   Hidden then visible before the timer fires: no warning, delivery stays on
   and the timer can no longer suspend it.
   */
  lemma {:induction false} VisibleBeforeDelayCancels(s: Timers, errored: bool)
    requires Valid(s) && !s.stopUpdates
    ensures var (after, warn) := Visible(Hidden(s), errored);
      && !warn
      && !after.stopUpdates
      && s.nextTimer !in after.armed
      && Fire(after, s.nextTimer) == after
  {
  }

  /**
   Two hidden notifications in a row orphan the first timer: a visible
   notification cancels only the second, and the first still suspends
   delivery when it fires.
   */
  lemma {:induction false} SecondHiddenOrphansFirstTimer(s: Timers, errored: bool)
    requires Valid(s)
    ensures var after := Visible(Hidden(Hidden(s)), errored).0;
      && s.nextTimer in after.armed
      && !after.stopUpdates
      && Fire(after, s.nextTimer).stopUpdates
  {
  }

  /**
   When the orphaned timer fires first it empties the slot, so the visible
   notification that follows cancels nothing and the newer timer suspends
   delivery again later.
   */
  lemma {:induction false} OrphanFiringUnhooksNewerTimer(s: Timers, errored: bool)
    requires Valid(s)
    ensures var twice := Hidden(Hidden(s));
      var after := Visible(Fire(twice, s.nextTimer), errored);
      && after.1 == !errored
      && s.nextTimer + 1 in after.0.armed
      && Fire(after.0, s.nextTimer + 1).stopUpdates
  {
  }
}

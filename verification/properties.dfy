/**
 Properties of the client over whole event sequences: what reaches the
 socket and in what order, which topics are registered and announced, when
 delivery is suspended, and which notifications the error flag silences.
 */
module ClientProperties {
  import opened Wrappers
  import opened TopicRegistry
  import ReadinessGate
  import Suspension
  import opened WebSocketClient

  /** The client after `events`, with everything they made observable, in order. */
  function Run(c: Client, events: seq<Event>): (Client, seq<Effect>)
    decreases |events|
  {
    if events == [] then (c, [])
    else
      var first := Step(c, events[0]);
      var rest := Run(first.0, events[1..]);
      (rest.0, first.1 + rest.1)
  }

  /** The frames handed to `send` along `events`, in call order. */
  function Requested(c: Client, events: seq<Event>): seq<Message>
    decreases |events|
  {
    if events == [] then []
    else Outbound(c, events[0]) + Requested(Step(c, events[0]).0, events[1..])
  }

  // ---------------------------------------------------------------------
  // One event

  /** What an event hands to `send` either goes out now or joins the queue, in order. */
  lemma StepConservesFrames(c: Client, e: Event)
    requires Valid(c)
    ensures Transmits(Step(c, e).1) + Step(c, e).0.gate.pending == c.gate.pending + Outbound(c, e)
  {
  }

  /** Before the socket opens, no event but the open itself transmits anything. */
  lemma StepGatesFrames(c: Client, e: Event)
    requires !c.gate.open && !e.Open?
    ensures Transmits(Step(c, e).1) == []
  {
  }

  /** Only `subscribe` adds a topic, and nothing removes one. */
  lemma StepTopicKeys(c: Client, e: Event)
    ensures Step(c, e).0.topics.Keys == c.topics.Keys + (if e.Subscribe? then {e.topic} else {})
  {
  }

  /** Delivery is suspended only by an armed timer firing. */
  lemma StepOnlyTimerSuspends(c: Client, e: Event)
    requires !c.timers.stopUpdates && Step(c, e).0.timers.stopUpdates
    ensures e.TimerFires? && e.timer in c.timers.armed
  {
  }

  /** While suspended, an inbound frame is dropped without a trace. */
  lemma StepSuspendedDropsInbound(c: Client, topic: Topic, data: Data)
    requires c.timers.stopUpdates
    ensures Step(c, Inbound(topic, data)) == (c, [])
  {
  }

  /** The "closed" and suspension notifications never follow an error. */
  lemma StepErrorSilences(c: Client, e: Event)
    ensures Closed in Notices(Step(c, e).1) ==> e.Close? && !c.errored
    ensures UpdatesSuspended in Notices(Step(c, e).1) ==> e.Visible? && !c.errored
  {
    match e
    case Open =>
    case Close =>
      assert Notices([Notify(Closed)]) == [Closed];
    case Error =>
    case Inbound(_, _) =>
    case Visible =>
      assert Notices([Notify(UpdatesSuspended)]) == [UpdatesSuspended];
    case Send(json) =>
      assert Notices(Step(c, e).1) == Notices(SendMessage(c, Payload(json)).1);
    case Subscribe(topic, cb, lifetime) =>
      assert Notices(Step(c, e).1) == Notices(OnSubscribe(c, topic, cb, lifetime).1);
    case _ =>
      assert Step(c, e).1 == [];
  }

  // ---------------------------------------------------------------------
  // Event sequences

  lemma {:induction false} RunPreservesValid(c: Client, events: seq<Event>)
    requires Valid(c)
    ensures Valid(Run(c, events).0)
    decreases |events|
  {
    if events != [] {
      RunPreservesValid(Step(c, events[0]).0, events[1..]);
    }
  }

  /**
   Every frame handed to `send` is transmitted at most once and in call
   order: the transmitted frames followed by those still queued are exactly
   the frames queued before plus the frames requested since.
   */
  lemma {:induction false} FramesLeaveInCallOrder(c: Client, events: seq<Event>)
    requires Valid(c)
    ensures Transmits(Run(c, events).1) + Run(c, events).0.gate.pending == c.gate.pending + Requested(c, events)
    decreases |events|
  {
    if events != [] {
      var (next, now) := Step(c, events[0]);
      var (last, later) := Run(next, events[1..]);
      assert Run(c, events) == (last, now + later);
      StepConservesFrames(c, events[0]);
      assert Valid(next);
      FramesLeaveInCallOrder(next, events[1..]);
      TransmitsAppend(now, later);
      assert Transmits(later) + last.gate.pending == next.gate.pending + Requested(next, events[1..]);
      assert Transmits(now) + next.gate.pending == c.gate.pending + Outbound(c, events[0]);
      assert Requested(c, events) == Outbound(c, events[0]) + Requested(next, events[1..]);
      Reassociate(Transmits(now), Transmits(later), last.gate.pending);
      Reassociate(Transmits(now), next.gate.pending, Requested(next, events[1..]));
      Reassociate(c.gate.pending, Outbound(c, events[0]), Requested(next, events[1..]));
    }
  }

  /**
   Re-brackets a concatenation; kept apart so that the lemma above need not
   prove sequence re-bracketing in its own, larger context.
   */
  lemma Reassociate(a: seq<Message>, b: seq<Message>, d: seq<Message>)
    ensures (a + b) + d == a + (b + d)
  {
  }

  /** No frame reaches the socket while it has not opened. */
  lemma {:induction false} NothingTransmittedBeforeOpen(c: Client, events: seq<Event>)
    requires !c.gate.open
    requires forall i :: 0 <= i < |events| ==> !events[i].Open?
    ensures Transmits(Run(c, events).1) == []
    ensures !Run(c, events).0.gate.open
    decreases |events|
  {
    if events != [] {
      var (next, now) := Step(c, events[0]);
      StepGatesFrames(c, events[0]);
      NothingTransmittedBeforeOpen(next, events[1..]);
      ObservationsAppend(now, Run(next, events[1..]).1);
    }
  }

  /** The gate is resolved after a run exactly when it was before or the socket opened. */
  lemma {:induction false} OpenIsPermanent(c: Client, events: seq<Event>)
    ensures Run(c, events).0.gate.open <==> c.gate.open || exists i :: 0 <= i < |events| && events[i].Open?
    decreases |events|
  {
    if events != [] {
      OpenIsPermanent(Step(c, events[0]).0, events[1..]);
      assert forall i :: 1 <= i < |events| ==> events[i] == events[1..][i - 1];
    }
  }

  /**
   Once the socket has opened, every frame ever handed to `send` has been
   transmitted exactly once, frames queued before the open first.
   */
  lemma EveryFrameTransmittedOnceOpen(c: Client, events: seq<Event>)
    requires Valid(c)
    requires exists i :: 0 <= i < |events| && events[i].Open?
    ensures Transmits(Run(c, events).1) == c.gate.pending + Requested(c, events)
  {
    OpenIsPermanent(c, events);
    RunPreservesValid(c, events);
    FramesLeaveInCallOrder(c, events);
  }

  /** The error flag is set after a run exactly when it was before or an error occurred. */
  lemma {:induction false} ErrorIsSticky(c: Client, events: seq<Event>)
    ensures Run(c, events).0.errored <==> c.errored || exists i :: 0 <= i < |events| && events[i].Error?
    decreases |events|
  {
    if events != [] {
      ErrorIsSticky(Step(c, events[0]).0, events[1..]);
      assert forall i :: 1 <= i < |events| ==> events[i] == events[1..][i - 1];
    }
  }

  /** Once the connection has failed, neither "closed" nor the suspension warning is notified. */
  lemma {:induction false} ErrorSilencesLaterNotices(c: Client, events: seq<Event>)
    requires c.errored
    ensures Closed !in Notices(Run(c, events).1)
    ensures UpdatesSuspended !in Notices(Run(c, events).1)
    decreases |events|
  {
    if events != [] {
      var (next, now) := Step(c, events[0]);
      StepErrorSilences(c, events[0]);
      ErrorSilencesLaterNotices(next, events[1..]);
      ObservationsAppend(now, Run(next, events[1..]).1);
    }
  }

  /** A topic is registered after a run exactly when it was before or was subscribed to. */
  lemma {:induction false} RegisteredIffSubscribed(c: Client, events: seq<Event>, t: Topic)
    ensures t in Run(c, events).0.topics <==>
      t in c.topics || exists i :: 0 <= i < |events| && events[i].Subscribe? && events[i].topic == t
    decreases |events|
  {
    if events != [] {
      StepTopicKeys(c, events[0]);
      RegisteredIffSubscribed(Step(c, events[0]).0, events[1..], t);
      assert forall i :: 1 <= i < |events| ==> events[i] == events[1..][i - 1];
    }
  }

  /** An event hands the subscribe frame of `t` to `send` only when it first subscribes to `t`. */
  lemma OutboundSubscribeFrames(c: Client, e: Event, t: Topic)
    ensures multiset(Outbound(c, e))[SubscribeRequest(t)] == if e.Subscribe? && e.topic == t && t !in c.topics then 1 else 0
  {
  }

  /**
   The subscribe frame for a topic is handed to `send` once, by the run that
   first registers the topic, and never otherwise.
   */
  lemma {:induction false} OneSubscribeFramePerTopic(c: Client, events: seq<Event>, t: Topic)
    ensures multiset(Requested(c, events))[SubscribeRequest(t)] ==
      if t !in c.topics && t in Run(c, events).0.topics then 1 else 0
    decreases |events|
  {
    if events != [] {
      var e := events[0];
      var next := Step(c, e).0;
      StepTopicKeys(c, e);
      OutboundSubscribeFrames(c, e, t);
      OneSubscribeFramePerTopic(next, events[1..], t);
      RegisteredIffSubscribed(next, events[1..], t);
      assert Run(c, events).0 == Run(next, events[1..]).0;
      assert Requested(c, events) == Outbound(c, e) + Requested(next, events[1..]);
    }
  }

  /** Delivery only becomes suspended during a run in which a timer fired. */
  lemma {:induction false} OnlyTimersSuspend(c: Client, events: seq<Event>)
    requires !c.timers.stopUpdates && Run(c, events).0.timers.stopUpdates
    ensures exists i :: 0 <= i < |events| && events[i].TimerFires?
    decreases |events|
  {
    var next := Step(c, events[0]).0;
    if next.timers.stopUpdates {
      StepOnlyTimerSuspends(c, events[0]);
    } else {
      OnlyTimersSuspend(next, events[1..]);
      var i :| 0 <= i < |events[1..]| && events[1..][i].TimerFires?;
      assert events[i + 1].TimerFires?;
    }
  }

  // ---------------------------------------------------------------------
  // Short runs, unfolded

  lemma StepSubscribes(c: Client, t: Topic, cb: CallbackId, lifetime: Option<ScopeId>)
    ensures Step(c, Subscribe(t, cb, lifetime)) == OnSubscribe(c, t, cb, lifetime)
  {
  }

  lemma StepUnsubscribes(c: Client, t: Topic, cb: CallbackId)
    ensures Step(c, Unsubscribe(t, cb)) == OnUnsubscribe(c, t, Bare(cb))
  {
  }

  lemma StepDelivers(c: Client, t: Topic, d: Data)
    ensures Step(c, Inbound(t, d)) == OnInbound(c, t, d)
  {
  }

  lemma StepHides(c: Client)
    ensures Step(c, Hidden) == OnHidden(c)
  {
  }

  lemma StepFiresTimer(c: Client, timer: Suspension.TimerId)
    ensures Step(c, TimerFires(timer)) == OnTimer(c, timer)
  {
  }

  lemma StepShows(c: Client)
    ensures Step(c, Visible) == OnVisible(c)
  {
  }

  lemma StepDestroysScope(c: Client, scope: ScopeId)
    ensures Step(c, ScopeDestroyed(scope)) == OnScopeDestroyed(c, scope)
  {
  }

  /** One step of `Run`, unfolded. */
  lemma RunCons(c: Client, e: Event, rest: seq<Event>)
    ensures var first := Step(c, e);
      Run(c, [e] + rest) == (Run(first.0, rest).0, first.1 + Run(first.0, rest).1)
  {
    assert ([e] + rest)[0] == e;
    assert ([e] + rest)[1..] == rest;
  }

  lemma RunPair(c: Client, a: Event, b: Event, c1: Client, e1: seq<Effect>, c2: Client, e2: seq<Effect>)
    requires Step(c, a) == (c1, e1) && Step(c1, b) == (c2, e2)
    ensures Run(c, [a, b]) == (c2, e1 + e2)
  {
    RunCons(c1, b, []);
    assert Run(c2, []) == (c2, []);
    assert e2 + [] == e2;
    assert [b] + [] == [b];
    RunCons(c, a, [b]);
    assert [a] + [b] == [a, b];
  }

  lemma RunTriple(c: Client, a: Event, b: Event, d: Event, c1: Client, e1: seq<Effect>, c2: Client, e2: seq<Effect>, c3: Client, e3: seq<Effect>)
    requires Step(c, a) == (c1, e1) && Step(c1, b) == (c2, e2) && Step(c2, d) == (c3, e3)
    ensures Run(c, [a, b, d]) == (c3, e1 + (e2 + e3))
  {
    assert [a, b, d][1..] == [b, d];
    RunPair(c1, b, d, c2, e2, c3, e3);
  }

  /** Destroying a scope runs its listeners in turn, whatever came before. */
  lemma {:induction false} DetachAppend(reg: Registry, a: seq<Listener>, b: seq<Listener>, scope: ScopeId)
    ensures Detach(reg, a + b, scope) == Detach(Detach(reg, a, scope), b, scope)
    decreases |a|
  {
    if a == [] {
      assert a + b == b;
    } else {
      assert (a + b)[0] == a[0];
      assert (a + b)[1..] == a[1..] + b;
      var next := if a[0].scope == scope then Unregister(reg, a[0].topic, a[0].wrapper) else reg;
      DetachAppend(next, a[1..], b, scope);
    }
  }

  /** Listeners of other scopes are left alone. */
  lemma {:induction false} DetachOtherScopes(reg: Registry, ls: seq<Listener>, scope: ScopeId)
    requires forall l :: l in ls ==> l.scope != scope
    ensures Detach(reg, ls, scope) == reg
    decreases |ls|
  {
    if ls != [] {
      assert ls[0] in ls;
      assert forall l :: l in ls[1..] ==> l in ls;
      DetachOtherScopes(reg, ls[1..], scope);
    }
  }

  /** Destroying a scope whose only listener is the last one registered runs just that listener. */
  lemma DetachOnlyLast(reg: Registry, ls: seq<Listener>, x: Listener, scope: ScopeId)
    requires forall l :: l in ls ==> l.scope != scope
    requires x.scope == scope
    ensures Detach(reg, ls + [x], scope) == Unregister(reg, x.topic, x.wrapper)
  {
    DetachAppend(reg, ls, [x], scope);
    DetachOtherScopes(reg, ls, scope);
    assert [x][1..] == [];
  }

  /** The client after a scoped subscription, as the rest of this section needs it. */
  lemma ScopedSubscribeShape(c: Client, t: Topic, cb: CallbackId, scope: ScopeId)
    requires Valid(c)
    ensures var w := Wrapped(cb, scope, c.nextWrapper);
      var c1 := Step(c, Subscribe(t, cb, Some(scope))).0;
      && w !in Listeners(c.topics, t)
      && c1.topics == Register(c.topics, t, w).0
      && c1.listeners == c.listeners + [Listener(scope, t, w)]
  {
    StepSubscribes(c, t, cb, Some(scope));
  }

  /**
   Subscribing with a fresh scope and then destroying that scope leaves the
   topic's callback list as it was; only the (possibly new) entry remains.
   */
  lemma ScopedSubscriptionUndoneByDestroy(c: Client, t: Topic, cb: CallbackId, scope: ScopeId)
    requires Valid(c)
    requires forall l :: l in c.listeners ==> l.scope != scope
    ensures Run(c, [Subscribe(t, cb, Some(scope)), ScopeDestroyed(scope)]).0.topics == c.topics[t := Listeners(c.topics, t)]
    ensures forall l :: l in Run(c, [Subscribe(t, cb, Some(scope)), ScopeDestroyed(scope)]).0.listeners <==> l in c.listeners
  {
    var w := Wrapped(cb, scope, c.nextWrapper);
    var (c1, e1) := Step(c, Subscribe(t, cb, Some(scope)));
    var (c2, e2) := Step(c1, ScopeDestroyed(scope));
    RunPair(c, Subscribe(t, cb, Some(scope)), ScopeDestroyed(scope), c1, e1, c2, e2);
    ScopedSubscribeShape(c, t, cb, scope);
    StepDestroysScope(c1, scope);
    DetachOnlyLast(c1.topics, c.listeners, Listener(scope, t, w), scope);
    RegisterThenUnregister(c.topics, t, w);
  }

  /**
   `unsubscribe` undoes a `subscribe` without a scope, provided the callback
   was not already registered for the topic.
   */
  lemma SubscriptionUndoneByUnsubscribe(c: Client, t: Topic, cb: CallbackId)
    requires Bare(cb) !in Listeners(c.topics, t)
    ensures Run(c, [Subscribe(t, cb, None), Unsubscribe(t, cb)]).0.topics == c.topics[t := Listeners(c.topics, t)]
  {
    var (c1, e1) := OnSubscribe(c, t, cb, None);
    var (c2, e2) := OnUnsubscribe(c1, t, Bare(cb));
    StepSubscribes(c, t, cb, None);
    StepUnsubscribes(c1, t, cb);
    RunPair(c, Subscribe(t, cb, None), Unsubscribe(t, cb), c1, e1, c2, e2);
    assert c1.topics == Register(c.topics, t, Bare(cb)).0;
    RegisterThenUnregister(c.topics, t, Bare(cb));
  }

  lemma BareSubscribeShape(c: Client, t: Topic, cb: CallbackId)
    ensures var r := Step(c, Subscribe(t, cb, None));
      && Invoked(r.1) == []
      && t in r.0.topics && r.0.topics[t] == Listeners(c.topics, t) + [Bare(cb)]
      && r.0.timers == c.timers
  {
    StepSubscribes(c, t, cb, None);
  }

  lemma InboundInvokesTargets(c: Client, t: Topic, d: Data)
    requires !c.timers.stopUpdates && t in c.topics
    ensures Invoked(Step(c, Inbound(t, d)).1) == Targets(c.topics[t])
  {
    StepDelivers(c, t, d);
  }

  /**
   A frame for a topic just subscribed to runs the earlier callbacks of the
   topic in order and then the new one, each once.
   */
  lemma DeliveredAfterSubscribe(c: Client, t: Topic, cb: CallbackId, d: Data)
    requires !c.timers.stopUpdates
    ensures Invoked(Run(c, [Subscribe(t, cb, None), Inbound(t, d)]).1) == Targets(Listeners(c.topics, t)) + [cb]
  {
    var (c1, e1) := Step(c, Subscribe(t, cb, None));
    var (c2, e2) := Step(c1, Inbound(t, d));
    RunPair(c, Subscribe(t, cb, None), Inbound(t, d), c1, e1, c2, e2);
    var list := Listeners(c.topics, t);
    BareSubscribeShape(c, t, cb);
    InboundInvokesTargets(c1, t, d);
    InvokedThenTargets(e1, e2, list, cb);
  }

  /** A trace that runs nothing, followed by one that runs `list` and then `cb`. */
  lemma InvokedThenTargets(e1: seq<Effect>, e2: seq<Effect>, list: seq<Callback>, cb: CallbackId)
    requires Invoked(e1) == [] && Invoked(e2) == Targets(list + [Bare(cb)])
    ensures Invoked(e1 + e2) == Targets(list) + [cb]
  {
    InvokedAppend(e1, e2);
    assert Targets(list + [Bare(cb)]) == Targets(list) + [cb];
  }

  /**
   A frame for a topic just subscribed to with a scope digests the scopes of
   the topic's earlier wrapped callbacks in order, and then the new scope.
   */
  lemma DigestedAfterScopedSubscribe(c: Client, t: Topic, cb: CallbackId, scope: ScopeId, d: Data)
    requires !c.timers.stopUpdates
    ensures Digests(Run(c, [Subscribe(t, cb, Some(scope)), Inbound(t, d)]).1) == WrappedScopes(Listeners(c.topics, t)) + [scope]
  {
    var (c1, e1) := Step(c, Subscribe(t, cb, Some(scope)));
    var (c2, e2) := Step(c1, Inbound(t, d));
    RunPair(c, Subscribe(t, cb, Some(scope)), Inbound(t, d), c1, e1, c2, e2);
    ScopedSubscribeDigestsNothing(c, t, cb, scope);
    StepDelivers(c1, t, d);
    DigestsThenScopes(e1, e2, Listeners(c.topics, t), Wrapped(cb, scope, c.nextWrapper));
  }

  lemma ScopedSubscribeDigestsNothing(c: Client, t: Topic, cb: CallbackId, scope: ScopeId)
    ensures var r := Step(c, Subscribe(t, cb, Some(scope)));
      && Digests(r.1) == []
      && t in r.0.topics && r.0.topics[t] == Listeners(c.topics, t) + [Wrapped(cb, scope, c.nextWrapper)]
      && r.0.timers == c.timers
  {
    StepSubscribes(c, t, cb, Some(scope));
    var e1 := Step(c, Subscribe(t, cb, Some(scope))).1;
    assert e1 == [] || e1 == [Transmit(SubscribeRequest(t))];
  }

  /** A trace that digests nothing, followed by one that digests for `list` and then `w`. */
  lemma DigestsThenScopes(e1: seq<Effect>, e2: seq<Effect>, list: seq<Callback>, w: Callback)
    requires w.Wrapped?
    requires Digests(e1) == [] && Digests(e2) == WrappedScopes(list + [w])
    ensures Digests(e1 + e2) == WrappedScopes(list) + [w.scope]
  {
    DigestsAppend(e1, e2);
    WrappedScopesAppend(list, [w]);
    assert WrappedScopes([w]) == [w.scope];
  }

  /**
   After `unsubscribe`, a frame for the topic no longer runs the callback,
   unless it is still registered through a scope's wrapper.
   */
  lemma NotDeliveredAfterUnsubscribe(c: Client, t: Topic, cb: CallbackId, d: Data)
    requires forall w :: w in Listeners(c.topics, t) && w.Target() == cb ==> w.Bare?
    ensures cb !in Invoked(Run(c, [Unsubscribe(t, cb), Inbound(t, d)]).1)
  {
    var (c1, e1) := Step(c, Unsubscribe(t, cb));
    var (c2, e2) := Step(c1, Inbound(t, d));
    RunPair(c, Unsubscribe(t, cb), Inbound(t, d), c1, e1, c2, e2);
    UnsubscribeLeavesNoTarget(c, t, cb);
    StepDelivers(c1, t, d);
    assert e1 + e2 == e2;
  }

  /** After `unsubscribe`, no entry left in the topic runs the callback. */
  lemma UnsubscribeLeavesNoTarget(c: Client, t: Topic, cb: CallbackId)
    requires forall w :: w in Listeners(c.topics, t) && w.Target() == cb ==> w.Bare?
    ensures var r := Step(c, Unsubscribe(t, cb));
      && r.1 == []
      && (t in r.0.topics ==> cb !in Targets(r.0.topics[t]))
  {
    StepUnsubscribes(c, t, cb);
    var c1 := OnUnsubscribe(c, t, Bare(cb)).0;
    if t in c1.topics {
      assert forall w :: w in c1.topics[t] ==> w.Target() != cb;
      NotATarget(c1.topics[t], cb);
    }
  }

  /** A function that no entry of `list` runs is not among its targets. */
  lemma NotATarget(list: seq<Callback>, cb: CallbackId)
    requires forall w :: w in list ==> w.Target() != cb
    ensures cb !in Targets(list)
  {
    forall i | 0 <= i < |list|
      ensures Targets(list)[i] != cb
    {
      assert list[i] in list;
    }
  }

  // ---------------------------------------------------------------------
  // Visibility

  /** Hidden long enough for the timer to fire: a frame for any topic is dropped. */
  lemma HiddenPastDelayDropsFrames(c: Client, t: Topic, d: Data)
    requires Valid(c)
    ensures Run(c, [Hidden, TimerFires(c.timers.nextTimer), Inbound(t, d)]).1 == []
  {
    var (c1, e1) := OnHidden(c);
    var (c2, e2) := OnTimer(c1, c.timers.nextTimer);
    var (c3, e3) := OnInbound(c2, t, d);
    StepHides(c);
    StepFiresTimer(c1, c.timers.nextTimer);
    StepDelivers(c2, t, d);
    RunTriple(c, Hidden, TimerFires(c.timers.nextTimer), Inbound(t, d), c1, e1, c2, e2, c3, e3);
  }

  /**
   Visible again before the delay: no warning, delivery continues, and the
   cancelled timer firing later changes nothing.
   */
  lemma VisibleBeforeDelayKeepsDelivering(c: Client)
    requires Valid(c) && !c.timers.stopUpdates
    ensures var r := Run(c, [Hidden, Visible, TimerFires(c.timers.nextTimer)]);
      && r.1 == []
      && !r.0.timers.stopUpdates
  {
    var (c1, e1) := OnHidden(c);
    var (c2, e2) := OnVisible(c1);
    var (c3, e3) := OnTimer(c2, c.timers.nextTimer);
    StepHides(c);
    StepShows(c1);
    StepFiresTimer(c2, c.timers.nextTimer);
    RunTriple(c, Hidden, Visible, TimerFires(c.timers.nextTimer), c1, e1, c2, e2, c3, e3);
    assert c1.timers.slot == Some(c.timers.nextTimer);
    assert c.timers.nextTimer !in c2.timers.armed;
  }

  /**
   Visible after suspension: exactly one warning unless the connection has
   failed, and delivery resumes either way.
   */
  lemma VisibleAfterSuspensionWarnsOnce(c: Client)
    requires Valid(c)
    ensures var r := Run(c, [Hidden, TimerFires(c.timers.nextTimer), Visible]);
      && Notices(r.1) == (if c.errored then [] else [UpdatesSuspended])
      && !r.0.timers.stopUpdates
  {
    var (c1, e1) := OnHidden(c);
    var (c2, e2) := OnTimer(c1, c.timers.nextTimer);
    var (c3, e3) := OnVisible(c2);
    StepHides(c);
    StepFiresTimer(c1, c.timers.nextTimer);
    StepShows(c2);
    RunTriple(c, Hidden, TimerFires(c.timers.nextTimer), Visible, c1, e1, c2, e2, c3, e3);
    assert c2.timers.stopUpdates && c2.errored == c.errored;
    assert e1 + (e2 + e3) == e3;
    assert Notices([Notify(UpdatesSuspended)]) == [UpdatesSuspended];
  }

  // ---------------------------------------------------------------------
  // A worked scenario

  /** The first subscription on a fresh client registers the topic and queues its frame. */
  lemma FreshClientSubscribes(c: Client, t: Topic, cb: CallbackId)
    requires Pristine(c)
    ensures var r := Step(c, Subscribe(t, cb, None));
      && r.1 == []
      && r.0.topics == map[t := [Bare(cb)]]
      && r.0.gate.pending == [SubscribeRequest(t)] && !r.0.gate.open
      && !r.0.timers.stopUpdates
  {
    StepSubscribes(c, t, cb, None);
    var r := OnSubscribe(c, t, cb, None);
    assert r.0.topics.Keys == {t} && r.0.topics[t] == [Bare(cb)];
  }

  /** A topic whose only callback is bare runs exactly that callback. */
  lemma SoleCallbackRuns(c: Client, t: Topic, cb: CallbackId, d: Data)
    requires !c.timers.stopUpdates && c.topics == map[t := [Bare(cb)]]
    ensures Step(c, Inbound(t, d)) == (c, [Invoke(cb, d)])
  {
    StepDelivers(c, t, d);
    assert t in c.topics && c.topics[t] == [Bare(cb)];
    assert OnInbound(c, t, d) == (c, FanOut([Bare(cb)], d));
    assert [Bare(cb)][1..] == [];
    assert FireOne(Bare(cb), d) == [Invoke(cb, d)];
    assert FanOut([Bare(cb)], d) == FireOne(Bare(cb), d) + FanOut([], d);
    assert FanOut([], d) == [];
    assert [Invoke(cb, d)] + [] == [Invoke(cb, d)];
  }

  /** Unsubscribing the only callback leaves the topic with an empty list. */
  lemma SoleCallbackRemoved(c: Client, t: Topic, cb: CallbackId)
    requires c.topics == map[t := [Bare(cb)]]
    ensures Step(c, Unsubscribe(t, cb)) == (c.(topics := map[t := []]), [])
  {
    StepUnsubscribes(c, t, cb);
    assert Remove([Bare(cb)], Bare(cb)) == [];
    assert Unregister(c.topics, t, Bare(cb)) == map[t := []];
  }

  /** A topic with no callbacks left runs nothing. */
  lemma EmptyTopicSilent(c: Client, t: Topic, d: Data)
    requires t in c.topics && c.topics[t] == []
    ensures Step(c, Inbound(t, d)) == (c, [])
  {
    StepDelivers(c, t, d);
  }

  /**
   Subscribe to "prices", receive 42, unsubscribe, receive 42 again: the
   callback runs once, and the subscribe frame waits for the socket to open.
   */
  lemma PricesScenario()
    ensures var c := Construct(Config(Some("ws://localhost"), None, 20000)).value;
      var r := Run(c, [Subscribe("prices", 1, None), Inbound("prices", "42"), Unsubscribe("prices", 1), Inbound("prices", "42")]);
      && r.1 == [Invoke(1, "42")]
      && r.0.gate.pending == [SubscribeRequest("prices")]
      && r.0.topics == map["prices" := []]
  {
    var c := Construct(Config(Some("ws://localhost"), None, 20000)).value;
    var sub, msg, unsub := Subscribe("prices", 1, None), Inbound("prices", "42"), Unsubscribe("prices", 1);
    var c1 := Step(c, sub).0;
    FreshClientSubscribes(c, "prices", 1);
    SoleCallbackRuns(c1, "prices", 1, "42");
    SoleCallbackRemoved(c1, "prices", 1);
    var c3 := c1.(topics := map["prices" := []]);
    EmptyTopicSilent(c3, "prices", "42");
    RunTriple(c1, msg, unsub, msg, c1, [Invoke(1, "42")], c3, [], c3, []);
    assert [sub, msg, unsub, msg][1..] == [msg, unsub, msg];
    assert Run(c, [sub, msg, unsub, msg]) == (c3, [] + ([Invoke(1, "42")] + ([] + [])));
  }
}

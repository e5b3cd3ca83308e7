/**
 The `webSocket` service: one socket carrying many named topics. The client
 is an immutable record and every notification it handles (socket open,
 close, error and message; page hidden and visible; a timer firing) and every
 call of its API (`send`, `subscribe`, `unsubscribe`, a subscribing scope
 being destroyed) is an `Event`. `Step` maps a client and an event to the
 next client and the effects the event produces, in order.
 */
module WebSocketClient {
  import opened Wrappers
  import opened TopicRegistry
  import ReadinessGate
  import Suspension

  /** The `data` member of an inbound frame, kept as its JSON text. */
  type Data = string

  /** An outbound frame: the topic announcement, or a caller's object as JSON text. */
  datatype Message = SubscribeRequest(topic: Topic) | Payload(json: string)

  /** The socket in use: the injected test object, or one opened on the URL. */
  datatype Socket = Injected(handle: nat) | Dialled(url: string)

  /** What the provider was configured with before the service was first used. */
  datatype Config = Config(url: Option<string>, socketObject: Option<nat>, visibilityTimeout: nat)

  datatype ConfigError = UrlNotDefined

  /** The kind of each user-visible notification; titles and texts are not modelled. */
  datatype Notice = Connected | Closed | Failed | UpdatesSuspended

  /**
   What the outside world observes: a frame handed to the socket, a caller's
   callback run with inbound data, a scope digest after a wrapped callback,
   a notification.
   */
  datatype Effect =
    | Transmit(msg: Message)
    | Invoke(callback: CallbackId, data: Data)
    | Digest(scope: ScopeId)
    | Notify(notice: Notice)
  {
    function Transmitted(): seq<Message> {
      if Transmit? then [msg] else []
    }
    function Invocation(): seq<CallbackId> {
      if Invoke? then [callback] else []
    }
    function Notification(): seq<Notice> {
      if Notify? then [notice] else []
    }
    function Digested(): seq<ScopeId> {
      if Digest? then [scope] else []
    }
  }

  /** A `$destroy` listener: destroying `scope` unsubscribes `wrapper` from `topic`. */
  datatype Listener = Listener(scope: ScopeId, topic: Topic, wrapper: Callback)

  datatype Client = Client(
    socket: Socket,
    visibilityTimeout: nat,
    gate: ReadinessGate.Gate<Message>,
    errored: bool,
    topics: Registry,
    listeners: seq<Listener>,
    nextWrapper: nat,
    timers: Suspension.Timers)

  datatype Event =
    | Open
    | Close
    | Error
    | Inbound(topic: Topic, data: Data)
    | Hidden
    | TimerFires(timer: Suspension.TimerId)
    | Visible
    | Send(json: string)
    | Subscribe(topic: Topic, callback: CallbackId, lifetime: Option<ScopeId>)
    | Unsubscribe(topic: Topic, callback: CallbackId)
    | ScopeDestroyed(scope: ScopeId)

  // ---------------------------------------------------------------------
  // Observations on effect traces

  /** The frames handed to the socket, in order. */
  function Transmits(effects: seq<Effect>): seq<Message>
    decreases |effects|
  {
    if effects == [] then [] else effects[0].Transmitted() + Transmits(effects[1..])
  }

  /** The caller callbacks run, in order. */
  function Invoked(effects: seq<Effect>): seq<CallbackId>
    decreases |effects|
  {
    if effects == [] then [] else effects[0].Invocation() + Invoked(effects[1..])
  }

  /** The notifications shown, in order. */
  function Notices(effects: seq<Effect>): seq<Notice>
    decreases |effects|
  {
    if effects == [] then [] else effects[0].Notification() + Notices(effects[1..])
  }

  /** The scopes digested, in order. */
  function Digests(effects: seq<Effect>): seq<ScopeId>
    decreases |effects|
  {
    if effects == [] then [] else effects[0].Digested() + Digests(effects[1..])
  }

  lemma {:induction false} TransmitsAppend(a: seq<Effect>, b: seq<Effect>)
    ensures Transmits(a + b) == Transmits(a) + Transmits(b)
    decreases |a|
  {
    if a == [] {
      assert a + b == b;
    } else {
      var head := a[0].Transmitted();
      assert (a + b)[0] == a[0];
      assert (a + b)[1..] == a[1..] + b;
      assert Transmits(a + b) == head + Transmits(a[1..] + b);
      assert Transmits(a) == head + Transmits(a[1..]);
      TransmitsAppend(a[1..], b);
      assert head + (Transmits(a[1..]) + Transmits(b)) == (head + Transmits(a[1..])) + Transmits(b);
    }
  }

  lemma {:induction false} InvokedAppend(a: seq<Effect>, b: seq<Effect>)
    ensures Invoked(a + b) == Invoked(a) + Invoked(b)
    decreases |a|
  {
    if a == [] {
      assert a + b == b;
    } else {
      var head := a[0].Invocation();
      assert (a + b)[0] == a[0];
      assert (a + b)[1..] == a[1..] + b;
      assert Invoked(a + b) == head + Invoked(a[1..] + b);
      assert Invoked(a) == head + Invoked(a[1..]);
      InvokedAppend(a[1..], b);
      assert head + (Invoked(a[1..]) + Invoked(b)) == (head + Invoked(a[1..])) + Invoked(b);
    }
  }

  lemma {:induction false} NoticesAppend(a: seq<Effect>, b: seq<Effect>)
    ensures Notices(a + b) == Notices(a) + Notices(b)
    decreases |a|
  {
    if a == [] {
      assert a + b == b;
    } else {
      var head := a[0].Notification();
      assert (a + b)[0] == a[0];
      assert (a + b)[1..] == a[1..] + b;
      assert Notices(a + b) == head + Notices(a[1..] + b);
      assert Notices(a) == head + Notices(a[1..]);
      NoticesAppend(a[1..], b);
      assert head + (Notices(a[1..]) + Notices(b)) == (head + Notices(a[1..])) + Notices(b);
    }
  }

  lemma {:induction false} DigestsAppend(a: seq<Effect>, b: seq<Effect>)
    ensures Digests(a + b) == Digests(a) + Digests(b)
    decreases |a|
  {
    if a == [] {
      assert a + b == b;
    } else {
      var head := a[0].Digested();
      assert (a + b)[0] == a[0];
      assert (a + b)[1..] == a[1..] + b;
      assert Digests(a + b) == head + Digests(a[1..] + b);
      assert Digests(a) == head + Digests(a[1..]);
      DigestsAppend(a[1..], b);
      assert head + (Digests(a[1..]) + Digests(b)) == (head + Digests(a[1..])) + Digests(b);
    }
  }

  /** Each observation of a concatenated trace is the concatenation of the observations. */
  lemma ObservationsAppend(a: seq<Effect>, b: seq<Effect>)
    ensures Transmits(a + b) == Transmits(a) + Transmits(b)
    ensures Invoked(a + b) == Invoked(a) + Invoked(b)
    ensures Notices(a + b) == Notices(a) + Notices(b)
    ensures Digests(a + b) == Digests(a) + Digests(b)
  {
    TransmitsAppend(a, b);
    InvokedAppend(a, b);
    NoticesAppend(a, b);
    DigestsAppend(a, b);
  }

  /** One `Transmit` per message, in order. */
  function TransmitAll(ms: seq<Message>): (r: seq<Effect>)
    ensures Transmits(r) == ms
    ensures Invoked(r) == [] && Notices(r) == []
    ensures forall e :: e in r ==> e.Transmit?
    decreases |ms|
  {
    if ms == [] then []
    else
      var rest := TransmitAll(ms[1..]);
      ObservationsAppend([Transmit(ms[0])], rest);
      assert ms == [ms[0]] + ms[1..];
      [Transmit(ms[0])] + rest
  }

  // ---------------------------------------------------------------------
  // Construction

  /** JavaScript truthiness of the configured URL: set and not empty. */
  predicate UrlDefined(url: Option<string>) {
    url.Some? && url.value != ""
  }

  /** Nothing has happened on the connection yet. */
  ghost predicate Pristine(c: Client) {
    && !c.gate.open && c.gate.pending == []
    && !c.errored
    && c.topics == map[]
    && c.listeners == []
    && c.timers == Suspension.Idle()
  }

  /** The bookkeeping every reachable client keeps. */
  ghost predicate Valid(c: Client) {
    && ReadinessGate.Valid(c.gate)
    && Suspension.Valid(c.timers)
    && (forall t, w :: t in c.topics && w in c.topics[t] && w.Wrapped? ==> w.serial < c.nextWrapper)
  }

  /**
   Builds the service. It fails exactly when neither a (non-empty) URL nor a
   socket object is configured; otherwise it uses the socket object when one
   is given and opens a socket on the URL only when none is.
   */
  function Construct(config: Config): (r: Result<Client, ConfigError>)
    ensures r.Failure? <==> !UrlDefined(config.url) && config.socketObject.None?
    ensures r.Success? ==> Valid(r.value) && Pristine(r.value)
    ensures r.Success? ==> r.value.visibilityTimeout == config.visibilityTimeout
    ensures r.Success? && config.socketObject.Some? ==> r.value.socket == Injected(config.socketObject.value)
    ensures r.Success? && config.socketObject.None? ==> r.value.socket == Dialled(config.url.value)
  {
    if !UrlDefined(config.url) && config.socketObject.None? then Failure(UrlNotDefined)
    else
      var socket := if config.socketObject.Some? then Injected(config.socketObject.value) else Dialled(config.url.value);
      Success(Client(socket, config.visibilityTimeout, ReadinessGate.Unresolved(), false, map[], [], 0, Suspension.Idle()))
  }

  // ---------------------------------------------------------------------
  // Socket notifications

  /**
   The socket opened: the gate resolves, every queued frame is transmitted
   in call order, then "connected" is notified (on every open notification).
   */
  function OnOpen(c: Client): (r: (Client, seq<Effect>))
    ensures r.0 == c.(gate := r.0.gate)
    ensures r.0.gate.open && r.0.gate.pending == []
    ensures Transmits(r.1) == c.gate.pending
    ensures Notices(r.1) == [Connected] && r.1[|r.1| - 1] == Notify(Connected)
    ensures forall i :: 0 <= i < |r.1| - 1 ==> r.1[i].Transmit?
    ensures Invoked(r.1) == []
    ensures Valid(c) ==> Valid(r.0)
  {
    var (g, released) := ReadinessGate.Open(c.gate);
    ObservationsAppend(TransmitAll(released), [Notify(Connected)]);
    (c.(gate := g), TransmitAll(released) + [Notify(Connected)])
  }

  /** The socket closed: "closed" is notified unless an error came first. */
  function OnClose(c: Client): (r: (Client, seq<Effect>))
    ensures r.0 == c
    ensures c.errored ==> r.1 == []
    ensures !c.errored ==> r.1 == [Notify(Closed)]
  {
    (c, if c.errored then [] else [Notify(Closed)])
  }

  /** The socket failed: the sticky error flag is set and the error notified. */
  function OnError(c: Client): (r: (Client, seq<Effect>))
    ensures r.0 == c.(errored := true)
    ensures r.1 == [Notify(Failed)]
  {
    (c.(errored := true), [Notify(Failed)])
  }

  /** Runs one registered callback; a wrapped one then digests its scope. */
  function FireOne(cb: Callback, data: Data): (r: seq<Effect>)
    ensures Invoked(r) == [cb.Target()]
    ensures forall e :: e in r && e.Invoke? ==> e.data == data
    ensures forall e :: e in r && e.Digest? ==> cb.Wrapped? && e.scope == cb.scope
    ensures Digests(r) == WrappedScopes([cb])
    ensures r[0].Invoke? && (cb.Wrapped? ==> |r| == 2 && r[1] == Digest(cb.scope))
    ensures DigestsFollowInvokes(r) && DigestsPaired(r, [cb])
    ensures Transmits(r) == [] && Notices(r) == []
  {
    match cb
    case Bare(id) => [Invoke(id, data)]
    case Wrapped(inner, scope, _) =>
      ObservationsAppend([Invoke(inner, data)], [Digest(scope)]);
      assert ([Invoke(inner, data)] + [Digest(scope)])[..1] == [Invoke(inner, data)];
      [Invoke(inner, data)] + [Digest(scope)]
  }

  /** The scopes of the wrapped callbacks in `cbs`. */
  function Scopes(cbs: seq<Callback>): set<ScopeId> {
    set w | w in cbs && w.Wrapped? :: w.scope
  }

  /** The scopes of the wrapped callbacks in `cbs`, in list order. */
  function WrappedScopes(cbs: seq<Callback>): seq<ScopeId>
    decreases |cbs|
  {
    if cbs == [] then []
    else (if cbs[0].Wrapped? then [cbs[0].scope] else []) + WrappedScopes(cbs[1..])
  }

  lemma {:induction false} WrappedScopesAppend(a: seq<Callback>, b: seq<Callback>)
    ensures WrappedScopes(a + b) == WrappedScopes(a) + WrappedScopes(b)
    decreases |a|
  {
    if a == [] {
      assert a + b == b;
    } else {
      var head := if a[0].Wrapped? then [a[0].scope] else [];
      assert (a + b)[0] == a[0];
      assert (a + b)[1..] == a[1..] + b;
      assert WrappedScopes(a + b) == head + WrappedScopes(a[1..] + b);
      assert WrappedScopes(a) == head + WrappedScopes(a[1..]);
      WrappedScopesAppend(a[1..], b);
      assert head + (WrappedScopes(a[1..]) + WrappedScopes(b)) == (head + WrappedScopes(a[1..])) + WrappedScopes(b);
    }
  }

  /** The caller functions behind `cbs`, position by position. */
  function Targets(cbs: seq<Callback>): (r: seq<CallbackId>)
    ensures |r| == |cbs|
    ensures forall i :: 0 <= i < |cbs| ==> r[i] == cbs[i].Target()
  {
    seq(|cbs|, i requires 0 <= i < |cbs| => cbs[i].Target())
  }

  lemma TargetsCons(cbs: seq<Callback>)
    requires cbs != []
    ensures Targets(cbs) == [cbs[0].Target()] + Targets(cbs[1..])
  {
  }

  /** Every digest comes straight after the callback run that caused it. */
  predicate DigestsFollowInvokes(effects: seq<Effect>) {
    forall i :: 0 <= i < |effects| && effects[i].Digest? ==> 0 < i && effects[i - 1].Invoke?
  }

  lemma DigestsFollowInvokesAppend(a: seq<Effect>, b: seq<Effect>)
    requires DigestsFollowInvokes(a) && DigestsFollowInvokes(b)
    requires b != [] ==> !b[0].Digest?
    ensures DigestsFollowInvokes(a + b)
  {
    forall i | 0 <= i < |a + b| && (a + b)[i].Digest?
      ensures 0 < i && (a + b)[i - 1].Invoke?
    {
      if i >= |a| {
        assert (a + b)[i] == b[i - |a|];
        assert (a + b)[i - 1] == b[i - |a| - 1];
      }
    }
  }

  /** `digest` is the scope digest that wrapper `entry` makes after `run` ran its caller function. */
  predicate Belongs(run: Effect, digest: Effect, entry: Callback) {
    run.Invoke? && digest.Digest? && entry.Wrapped? && entry.inner == run.callback && entry.scope == digest.scope
  }

  /** The number of callback runs among the first `i` effects. */
  function RunsBefore(effects: seq<Effect>, i: nat): nat
    requires i <= |effects|
  {
    |Invoked(effects[..i])|
  }

  /**
   The effect at `i` comes straight after a callback run, and belongs to the
   entry of `cbs` that run came from: the runs counted up to `i` pick it out.
   */
  predicate PairedAt(effects: seq<Effect>, cbs: seq<Callback>, i: nat)
    requires i < |effects|
  {
    0 < i && 0 < RunsBefore(effects, i) <= |cbs| && Belongs(effects[i - 1], effects[i], cbs[RunsBefore(effects, i) - 1])
  }

  /** Every digest is made by the wrapper whose run comes straight before it. */
  predicate DigestsPaired(effects: seq<Effect>, cbs: seq<Callback>) {
    forall i :: 0 <= i < |effects| && effects[i].Digest? ==> PairedAt(effects, cbs, i)
  }

  lemma PairedAtLeft(a: seq<Effect>, b: seq<Effect>, ca: seq<Callback>, cb: seq<Callback>, i: nat)
    requires i < |a| && PairedAt(a, ca, i)
    ensures PairedAt(a + b, ca + cb, i)
  {
    assert (a + b)[..i] == a[..i];
    assert (a + b)[i] == a[i] && (a + b)[i - 1] == a[i - 1];
  }

  lemma PairedAtRight(a: seq<Effect>, b: seq<Effect>, ca: seq<Callback>, cb: seq<Callback>, i: nat)
    requires |a| <= i < |a + b| && |Invoked(a)| == |ca|
    requires PairedAt(b, cb, i - |a|)
    ensures PairedAt(a + b, ca + cb, i)
  {
    var j := i - |a|;
    assert (a + b)[i] == b[j] && (a + b)[i - 1] == b[j - 1];
    assert (a + b)[..i] == a + b[..j];
    InvokedAppend(a, b[..j]);
    assert RunsBefore(a + b, i) == |ca| + RunsBefore(b, j);
  }

  lemma DigestsPairedAppend(a: seq<Effect>, b: seq<Effect>, ca: seq<Callback>, cb: seq<Callback>)
    requires DigestsPaired(a, ca) && DigestsPaired(b, cb)
    requires |Invoked(a)| == |ca|
    ensures DigestsPaired(a + b, ca + cb)
  {
    forall i | 0 <= i < |a + b| && (a + b)[i].Digest?
      ensures PairedAt(a + b, ca + cb, i)
    {
      if i < |a| {
        assert (a + b)[i] == a[i];
        PairedAtLeft(a, b, ca, cb, i);
      } else {
        assert (a + b)[i] == b[i - |a|];
        PairedAtRight(a, b, ca, cb, i);
      }
    }
  }

  lemma DigestsPairedCons(cbs: seq<Callback>, head: seq<Effect>, rest: seq<Effect>)
    requires cbs != []
    requires DigestsPaired(head, [cbs[0]]) && DigestsPaired(rest, cbs[1..])
    requires |Invoked(head)| == 1
    ensures DigestsPaired(head + rest, cbs)
  {
    DigestsPairedAppend(head, rest, [cbs[0]], cbs[1..]);
    assert [cbs[0]] + cbs[1..] == cbs;
  }

  /** Runs each registered callback on `data`, in list order. */
  function FanOut(cbs: seq<Callback>, data: Data): (r: seq<Effect>)
    ensures Invoked(r) == Targets(cbs)
    ensures forall e :: e in r && e.Invoke? ==> e.data == data
    ensures forall e :: e in r && e.Digest? ==> e.scope in Scopes(cbs)
    ensures Digests(r) == WrappedScopes(cbs)
    ensures DigestsFollowInvokes(r) && (r != [] ==> r[0].Invoke?)
    ensures DigestsPaired(r, cbs)
    ensures Transmits(r) == [] && Notices(r) == []
    decreases |cbs|
  {
    if cbs == [] then []
    else
      var head := FireOne(cbs[0], data);
      var rest := FanOut(cbs[1..], data);
      ObservationsAppend(head, rest);
      DigestsFollowInvokesAppend(head, rest);
      DigestsPairedCons(cbs, head, rest);
      TargetsCons(cbs);
      ScopesCons(cbs);
      assert forall e :: e in head + rest <==> e in head || e in rest;
      head + rest
  }

  lemma ScopesCons(cbs: seq<Callback>)
    requires cbs != []
    ensures Scopes(cbs) == Scopes([cbs[0]]) + Scopes(cbs[1..])
    ensures WrappedScopes(cbs) == WrappedScopes([cbs[0]]) + WrappedScopes(cbs[1..])
  {
    forall x ensures x in Scopes(cbs) <==> x in Scopes([cbs[0]]) + Scopes(cbs[1..]) {
      if x in Scopes(cbs) {
        var w :| w in cbs && w.Wrapped? && w.scope == x;
        if w != cbs[0] {
          assert w in cbs[1..];
        }
      }
    }
    WrappedScopesSingle(cbs[0]);
  }

  lemma WrappedScopesSingle(cb: Callback)
    ensures WrappedScopes([cb]) == if cb.Wrapped? then [cb.scope] else []
  {
    assert [cb][1..] == [];
  }


  /**
   An inbound frame. While delivery is suspended it is dropped; otherwise the
   topic's callbacks run on its data when the topic is registered, and an
   unregistered topic is ignored. The client itself never changes.
   */
  function OnInbound(c: Client, topic: Topic, data: Data): (r: (Client, seq<Effect>))
    ensures r.0 == c
    ensures c.timers.stopUpdates || topic !in c.topics ==> r.1 == []
    ensures !c.timers.stopUpdates && topic in c.topics ==>
      && Invoked(r.1) == Targets(c.topics[topic])
      && Digests(r.1) == WrappedScopes(c.topics[topic])
      && DigestsPaired(r.1, c.topics[topic])
      && (forall e :: e in r.1 && e.Invoke? ==> e.data == data)
    ensures Transmits(r.1) == [] && Notices(r.1) == []
  {
    if c.timers.stopUpdates then (c, [])
    else if topic in c.topics then (c, FanOut(c.topics[topic], data))
    else (c, [])
  }

  // ---------------------------------------------------------------------
  // Page visibility and its timer

  /** The page became hidden: a new suspension timer is armed and held. */
  function OnHidden(c: Client): (r: (Client, seq<Effect>))
    ensures r.0 == c.(timers := r.0.timers) && r.1 == []
    ensures r.0.timers.slot == Some(c.timers.nextTimer)
    ensures r.0.timers.armed == c.timers.armed + {c.timers.nextTimer}
    ensures r.0.timers.stopUpdates == c.timers.stopUpdates
    ensures Valid(c) ==> Valid(r.0) && c.timers.nextTimer !in c.timers.armed
  {
    (c.(timers := Suspension.Hidden(c.timers)), [])
  }

  /** A suspension timer fires; only an armed one suspends delivery. */
  function OnTimer(c: Client, t: Suspension.TimerId): (r: (Client, seq<Effect>))
    ensures r.0 == c.(timers := r.0.timers) && r.1 == []
    ensures t in c.timers.armed ==> r.0.timers.stopUpdates && t !in r.0.timers.armed
    ensures t in c.timers.armed ==> r.0.timers.armed == c.timers.armed - {t} && r.0.timers.slot == None
    ensures t !in c.timers.armed ==> r.0 == c
    ensures Valid(c) ==> Valid(r.0)
  {
    (c.(timers := Suspension.Fire(c.timers, t)), [])
  }

  /**
   The page became visible: the suspension warning is notified exactly when
   delivery was suspended and the connection has not failed; delivery
   resumes and the timer in the slot is cancelled.
   */
  function OnVisible(c: Client): (r: (Client, seq<Effect>))
    ensures r.0 == c.(timers := r.0.timers)
    ensures r.1 == (if c.timers.stopUpdates && !c.errored then [Notify(UpdatesSuspended)] else [])
    ensures !r.0.timers.stopUpdates
    ensures c.timers.slot.Some? ==> c.timers.slot.value !in r.0.timers.armed
    ensures r.0.timers.armed <= c.timers.armed
    ensures c.timers.slot.Some? ==> r.0.timers.armed == c.timers.armed - {c.timers.slot.value}
    ensures c.timers.slot.None? ==> r.0.timers.armed == c.timers.armed
    ensures r.0.timers.slot == c.timers.slot
    ensures Valid(c) ==> Valid(r.0)
  {
    var (timers, warn) := Suspension.Visible(c.timers, c.errored);
    (c.(timers := timers), if warn then [Notify(UpdatesSuspended)] else [])
  }

  // ---------------------------------------------------------------------
  // The service API

  /** `send`: the frame goes out now when the socket is open, else it waits. */
  function SendMessage(c: Client, m: Message): (r: (Client, seq<Effect>))
    ensures r.0 == c.(gate := r.0.gate)
    ensures r.0.gate.open == c.gate.open
    ensures !c.gate.open ==> r.1 == [] && r.0.gate.pending == c.gate.pending + [m]
    ensures c.gate.open ==> r.1 == [Transmit(m)] && r.0.gate == c.gate
    ensures ReadinessGate.Valid(c.gate) ==> Transmits(r.1) + r.0.gate.pending == c.gate.pending + [m]
    ensures Invoked(r.1) == [] && Notices(r.1) == []
    ensures Valid(c) ==> Valid(r.0)
  {
    var (g, out) := ReadinessGate.Send(c.gate, m);
    (c.(gate := g), TransmitAll(out))
  }

  /** The callback `subscribe` registers: the bare one, or a fresh wrapper when a scope is given. */
  function Registered(cb: CallbackId, lifetime: Option<ScopeId>, serial: nat): Callback {
    if lifetime.Some? then Wrapped(cb, lifetime.value, serial) else Bare(cb)
  }

  /**
   `subscribe`: the first subscription to a topic sends the subscribe frame
   and creates the entry; every subscription appends one callback. With a
   scope the callback is a new wrapper, distinct from everything already
   registered, and destroying the scope will unsubscribe it.
   */
  function OnSubscribe(c: Client, topic: Topic, cb: CallbackId, lifetime: Option<ScopeId>): (r: (Client, seq<Effect>))
    ensures r.0.topics.Keys == c.topics.Keys + {topic}
    ensures r.0.topics[topic] == Listeners(c.topics, topic) + [Registered(cb, lifetime, c.nextWrapper)]
    ensures forall t :: t in c.topics && t != topic ==> r.0.topics[t] == c.topics[t]
    ensures topic in c.topics ==> r.1 == [] && r.0.gate == c.gate
    ensures topic !in c.topics ==> r.0.gate.open == c.gate.open
    ensures topic !in c.topics && !c.gate.open ==> r.1 == [] && r.0.gate.pending == c.gate.pending + [SubscribeRequest(topic)]
    ensures topic !in c.topics && c.gate.open ==> r.1 == [Transmit(SubscribeRequest(topic))]
    ensures lifetime.Some? ==>
      && r.0.listeners == c.listeners + [Listener(lifetime.value, topic, Registered(cb, lifetime, c.nextWrapper))]
      && r.0.nextWrapper == c.nextWrapper + 1
    ensures lifetime.None? ==> r.0.listeners == c.listeners && r.0.nextWrapper == c.nextWrapper
    ensures r.0 == c.(gate := r.0.gate, topics := r.0.topics, listeners := r.0.listeners, nextWrapper := r.0.nextWrapper)
    ensures r.0.errored == c.errored && r.0.timers == c.timers && r.0.socket == c.socket
    ensures Invoked(r.1) == [] && Notices(r.1) == []
    ensures Valid(c) && lifetime.Some? ==> Registered(cb, lifetime, c.nextWrapper) !in Listeners(c.topics, topic)
    ensures Valid(c) ==> Valid(r.0)
  {
    var (c1, out) := if topic in c.topics then (c, []) else SendMessage(c, SubscribeRequest(topic));
    var w := Registered(cb, lifetime, c.nextWrapper);
    var c2 := c1.(topics := Register(c1.topics, topic, w).0);
    if lifetime.Some? then
      (c2.(listeners := c2.listeners + [Listener(lifetime.value, topic, w)], nextWrapper := c.nextWrapper + 1), out)
    else (c2, out)
  }

  /**
   `unsubscribe`: removes the callback from a registered topic; the entry
   stays, no frame is sent, and an unknown topic is ignored.
   */
  function OnUnsubscribe(c: Client, topic: Topic, cb: Callback): (r: (Client, seq<Effect>))
    ensures r.0 == c.(topics := r.0.topics) && r.1 == []
    ensures r.0.topics.Keys == c.topics.Keys
    ensures topic !in c.topics ==> r.0 == c
    ensures topic in c.topics ==> forall w :: w in r.0.topics[topic] <==> w in c.topics[topic] && w != cb
    ensures topic in c.topics ==> r.0.topics[topic] == Remove(c.topics[topic], cb)
    ensures forall t :: t in c.topics && t != topic ==> r.0.topics[t] == c.topics[t]
    ensures Valid(c) ==> Valid(r.0)
  {
    (c.(topics := Unregister(c.topics, topic, cb)), [])
  }

  /** The callbacks that the listeners of `scope` in `ls` unsubscribe from `topic`. */
  function Dropped(ls: seq<Listener>, scope: ScopeId, topic: Topic): set<Callback> {
    set l | l in ls && l.scope == scope && l.topic == topic :: l.wrapper
  }

  /** What running the first listener of `ls` does to each topic, in terms of `Dropped`. */
  lemma DetachHead(reg: Registry, ls: seq<Listener>, scope: ScopeId)
    requires ls != []
    ensures var next := if ls[0].scope == scope then Unregister(reg, ls[0].topic, ls[0].wrapper) else reg;
      forall t :: t in reg ==> RemoveAll(next[t], Dropped(ls[1..], scope, t)) == RemoveAll(reg[t], Dropped(ls, scope, t))
  {
    var next := if ls[0].scope == scope then Unregister(reg, ls[0].topic, ls[0].wrapper) else reg;
    assert forall l :: l in ls <==> l == ls[0] || l in ls[1..];
    forall t | t in reg
      ensures RemoveAll(next[t], Dropped(ls[1..], scope, t)) == RemoveAll(reg[t], Dropped(ls, scope, t))
    {
      var later := Dropped(ls[1..], scope, t);
      if ls[0].scope == scope && ls[0].topic == t {
        assert Dropped(ls, scope, t) == {ls[0].wrapper} + later;
        RemoveIsRemoveAll(reg[t], ls[0].wrapper);
        RemoveAllTwice(reg[t], {ls[0].wrapper}, later);
      } else {
        assert Dropped(ls, scope, t) == later;
      }
    }
  }

  /**
   Runs, in order, the `$destroy` listeners of `scope` found in `ls`: each
   topic loses exactly the wrappers those listeners name for it.
   */
  function Detach(reg: Registry, ls: seq<Listener>, scope: ScopeId): (r: Registry)
    ensures r.Keys == reg.Keys
    ensures forall t :: t in reg ==> r[t] == RemoveAll(reg[t], Dropped(ls, scope, t))
    ensures forall t, w :: t in reg ==> (w in r[t] <==> w in reg[t] && Listener(scope, t, w) !in ls)
    decreases |ls|
  {
    if ls == [] then reg
    else
      var next := if ls[0].scope == scope then Unregister(reg, ls[0].topic, ls[0].wrapper) else reg;
      var r := Detach(next, ls[1..], scope);
      DetachHead(reg, ls, scope);
      assert forall l :: l in ls <==> l == ls[0] || l in ls[1..];
      r
  }

  /** The listeners that survive the destruction of `scope`. */
  function WithoutScope(ls: seq<Listener>, scope: ScopeId): (r: seq<Listener>)
    ensures forall l :: l in r <==> l in ls && l.scope != scope
    decreases |ls|
  {
    if ls == [] then []
    else
      assert forall l :: l in ls <==> l == ls[0] || l in ls[1..];
      (if ls[0].scope == scope then [] else [ls[0]]) + WithoutScope(ls[1..], scope)
  }

  /**
   A subscribing scope is destroyed: each wrapper subscribed with it is
   unsubscribed from its topic, nothing else is removed and no frame is sent.
   */
  function OnScopeDestroyed(c: Client, scope: ScopeId): (r: (Client, seq<Effect>))
    ensures r.0 == c.(topics := r.0.topics, listeners := r.0.listeners) && r.1 == []
    ensures r.0.topics.Keys == c.topics.Keys
    ensures forall t :: t in c.topics ==> r.0.topics[t] == RemoveAll(c.topics[t], Dropped(c.listeners, scope, t))
    ensures forall t, w :: t in c.topics ==> (w in r.0.topics[t] <==> w in c.topics[t] && Listener(scope, t, w) !in c.listeners)
    ensures forall l :: l in r.0.listeners <==> l in c.listeners && l.scope != scope
    ensures Valid(c) ==> Valid(r.0)
  {
    (c.(topics := Detach(c.topics, c.listeners, scope), listeners := WithoutScope(c.listeners, scope)), [])
  }

  // ---------------------------------------------------------------------
  // The transition function

  /** The frames an event hands to `send`, whether or not they go out yet. */
  function Outbound(c: Client, e: Event): seq<Message> {
    match e
    case Send(json) => [Payload(json)]
    case Subscribe(topic, _, _) => if topic in c.topics then [] else [SubscribeRequest(topic)]
    case _ => []
  }

  /**
   The client after `e`, and what `e` makes observable. Reachable clients
   stay valid, and the connection flags only ever move forward: the gate
   resolves only on open and the error flag is set only by an error.
   */
  function Step(c: Client, e: Event): (r: (Client, seq<Effect>))
    ensures Valid(c) ==> Valid(r.0)
    ensures r.0.gate.open <==> c.gate.open || e.Open?
    ensures r.0.errored <==> c.errored || e.Error?
  {
    match e
    case Open => OnOpen(c)
    case Close => OnClose(c)
    case Error => OnError(c)
    case Inbound(topic, data) => OnInbound(c, topic, data)
    case Hidden => OnHidden(c)
    case TimerFires(t) => OnTimer(c, t)
    case Visible => OnVisible(c)
    case Send(json) => SendMessage(c, Payload(json))
    case Subscribe(topic, cb, lifetime) => OnSubscribe(c, topic, cb, lifetime)
    case Unsubscribe(topic, cb) => OnUnsubscribe(c, topic, Bare(cb))
    case ScopeDestroyed(scope) => OnScopeDestroyed(c, scope)
  }
}

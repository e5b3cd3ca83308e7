# webSocket service: a Dafny model

This project models the `webSocket` service of `src/service/websocket.js`: an
AngularJS client that carries many named topics over one WebSocket. The
service

- waits for the socket to open before transmitting anything, then transmits
  in call order every frame handed to `send`;
- keeps a topic map from topic name to a `jQuery.Callbacks` list, announces a
  topic to the server with `{type: 'subscribe', topic}` the first time anyone
  subscribes to it, and never removes an entry;
- dispatches each inbound `{topic, data}` frame to the callbacks of its
  topic, unless delivery is suspended;
- suspends delivery when a timer armed by "page hidden" fires, and resumes it
  on "page visible", warning the user if it had been suspended;
- reports open, close and error through a notification sink, with a sticky
  error flag that silences the later "closed" and suspension notices.

The model is functional. `WebSocketClient.Client` is an immutable record of
the service's variables (the readiness gate and its queue, the error flag,
the topic map, the `$destroy` listeners, the suspension timers).
`WebSocketClient.Step` maps a client and one `Event` to the next client and
the `Effect`s the event makes observable: frames handed to the socket,
caller callbacks run, scope digests and notifications. `ClientProperties.Run`
folds `Step` over an event sequence.

Files:

- `wrappers.dfy`: `Option` and `Result`.
- `gate.dfy` (`ReadinessGate`): the deferred `open` promise and the sends
  chained onto it.
- `registry.dfy` (`TopicRegistry`): callback identities and the topic map.
- `suspension.dfy` (`Suspension`): the visibility timers and the
  `stopUpdates` flag.
- `client.dfy` (`WebSocketClient`): configuration and construction, the
  client state, the handler for each event, and `Step`.
- `properties.dfy` (`ClientProperties`): properties over event sequences and
  worked scenarios.

Modelling choices:

- A callback list follows `jQuery.Callbacks()` with default flags. `add`
  appends even a callback that is already present. `remove` drops every
  occurrence of the identity. Firing runs the list in order.
- A callback is `Bare(id)` (the caller's function) or `Wrapped(id, scope,
  serial)`, the wrapper `subscribe` makes when it is given a scope. The
  serial makes every wrapper a new identity, as every call creates a new
  closure in the source.
- A configured URL counts as defined when it is present and non-empty,
  which is JavaScript truthiness for a string. When both a socket object and
  a URL are configured, the socket object is used.
- Timers are identities handed out in increasing order. A timer fires by an
  `Event`, and only a timer that is still armed has any effect.

Suspension timers are not limited to one. Every "hidden" notification arms a
new timer and overwrites the single handle slot
(`src/service/websocket.js:111-116`), so the earlier timer can no longer be
cancelled by "visible" and still suspends delivery when it fires. A firing
timer also sets the slot to `null` (`src/service/websocket.js:114`) even
when the slot holds a newer timer, so that newer timer escapes the next
"visible" as well. The model keeps both behaviours; they are stated in
`Suspension.SecondHiddenOrphansFirstTimer` and
`Suspension.OrphanFiringUnhooksNewerTimer`.

## Model

| member | source | states |
|---|---|---|
| WebSocketClient.Construct | src/service/websocket.js:30-34 | Construction fails exactly when neither a non-empty URL nor a socket object is configured. Otherwise the client starts closed, error-free, with no topics and delivery on. It uses the socket object when one is given and dials the URL only when none is. |
| ReadinessGate.Send | src/service/websocket.js:141-147 | Before the gate opens, nothing is transmitted and the frame joins the end of the queue. Once the gate is open, the frame is transmitted at once. Either way, transmitted frames followed by the queue equal the old queue plus the new frame. |
| ReadinessGate.Open | src/service/websocket.js:36-39 | Opening releases every queued frame exactly once and in order, and leaves the gate open with an empty queue. Opening again releases nothing. |
| WebSocketClient.OnOpen | src/service/websocket.js:38-50 | On open, the queued frames are transmitted in call order and then "connected" is notified. The trace holds nothing else: every effect before the last is a transmit. This happens on every open notification, and nothing else in the client changes. |
| WebSocketClient.OnClose | src/service/websocket.js:54-65 | On close, "closed" is notified exactly once when no error has occurred, and nothing is notified after an error. The client does not change. |
| WebSocketClient.OnError | src/service/websocket.js:68-78 | On error, the sticky error flag is set and the error is notified. Nothing else changes. |
| WebSocketClient.FanOut | src/service/websocket.js:173-176 | Callbacks run in list order, once per entry, and each receives the frame's data. The scopes digested are those of the wrapped entries, in list order. Each digest comes straight after the run of its own wrapper: counting the runs before it picks out a wrapped entry of that function and that scope. Nothing is transmitted or notified. |
| WebSocketClient.FireOne | src/service/websocket.js:170-177 | One entry runs its caller function on the data first. A wrapped entry then digests its own scope and nothing else; a bare entry does nothing more. |
| WebSocketClient.OnInbound | src/service/websocket.js:84-107 | While delivery is suspended, or when the topic is unregistered, a frame produces nothing. Otherwise the topic's callbacks run on its data, in order, and each wrapped entry's scope is digested straight after that entry's run. The client state never changes. |
| WebSocketClient.OnHidden | src/service/websocket.js:111-116 | On hidden, a fresh timer is armed and overwrites the handle slot. Timers armed earlier stay armed, and the delivery flag is unchanged. |
| WebSocketClient.OnTimer | src/service/websocket.js:112-115 | An armed timer that fires suspends delivery, leaves the armed set while every other timer stays armed, and empties the handle slot. A cancelled or already-fired timer changes nothing. |
| WebSocketClient.OnVisible | src/service/websocket.js:118-138 | On visible, the suspension warning is notified exactly when delivery was suspended and no error has occurred. Delivery resumes unconditionally. Only the timer held in the slot is cancelled, every other timer stays armed, and the slot keeps its handle. |
| WebSocketClient.SendMessage | src/service/websocket.js:141-147 | `send` transmits at once when the socket is open and otherwise queues the frame. Frames keep call order, and only the gate changes. |
| WebSocketClient.OnSubscribe | src/service/websocket.js:150-189 | The subscribe frame is sent exactly when the topic had no entry; later subscriptions send nothing. Each call appends one callback and leaves other topics unchanged. With a scope, the callback is a new wrapper distinct from every registered callback, and a `$destroy` listener is recorded for it. Nothing else in the client changes. |
| WebSocketClient.OnUnsubscribe | src/service/websocket.js:191-196 | `unsubscribe` leaves a registered topic's list as `Remove` of the given identity: every occurrence goes, the other entries keep their order and multiplicity. The entry and all other topics stay, no frame is sent, and an unknown topic changes nothing. |
| WebSocketClient.OnScopeDestroyed | src/service/websocket.js:179-183 | Destroying a scope removes from each topic exactly the wrappers that scope subscribed there; the rest of the list keeps its order and multiplicity. The topic keys stay, the scope's listeners are dropped, and no frame is sent. |
| WebSocketClient.Detach | src/service/websocket.js:181-183 | Running a scope's `$destroy` listeners in turn leaves each topic's list as `RemoveAll` of the wrappers that scope's listeners name for that topic, so a callback stays exactly when no such listener names it. |
| WebSocketClient.Step | src/service/websocket.js:29-197 | Every event keeps the client's bookkeeping valid. The gate is open after an event exactly when it was open before or the event is open. The error flag is set exactly when it was set before or the event is an error. |
| TopicRegistry.Remove | src/service/websocket.js:194 | Removing an identity from a callback list drops every occurrence of it and keeps every other entry with its multiplicity. |
| TopicRegistry.RemoveAppend | src/service/websocket.js:194 | Removal works entry by entry over a concatenation, so the remaining callbacks keep their relative order. |
| TopicRegistry.RemoveAbsent | src/service/websocket.js:194 | Removing an identity that is not in the list leaves the list unchanged. |
| TopicRegistry.RemoveAll | src/service/websocket.js:194 | Removing a set of identities drops every occurrence of each, keeps the other entries with their multiplicity, and removing nothing keeps the list. |
| TopicRegistry.RemoveIsRemoveAll | src/service/websocket.js:194 | One `remove` call is the removal of the singleton set of its identity. |
| TopicRegistry.RemoveAllTwice | src/service/websocket.js:181-183 | Removing one set of identities and then another is removing their union, so successive `remove` calls compose. |
| TopicRegistry.Register | src/service/websocket.js:151-165 | Registering reports that an entry was created exactly when the topic had none. It appends the callback to the topic's list and changes no other topic. |
| TopicRegistry.Unregister | src/service/websocket.js:191-196 | The key set never changes. An unknown topic is untouched. A registered topic's list becomes `Remove` of the given identity, so only that identity disappears and the order of the rest is kept. |
| TopicRegistry.RegisterThenUnregister | src/service/websocket.js:186-196 | Unregistering a callback that was newly registered restores the topic's list; only the topic's entry remains. |
| Suspension.Hidden | src/service/websocket.js:111-116 | Each hidden notification arms a timer with a new identity and puts it in the slot. Earlier timers stay armed. |
| Suspension.Fire | src/service/websocket.js:112-115 | Only an armed timer suspends delivery when it fires, and it then empties the slot whichever timer the slot held. Any other firing changes nothing. |
| Suspension.Visible | src/service/websocket.js:118-136 | A warning is due exactly when delivery was suspended and the connection has not failed. Delivery resumes, and only the slot's timer is cancelled; the slot keeps its handle. |
| Suspension.VisibleBeforeDelayCancels | src/service/websocket.js:111-136 | Hidden followed by visible before the timer fires gives no warning and keeps delivery on. The cancelled timer can no longer suspend delivery. |
| Suspension.SecondHiddenOrphansFirstTimer | src/service/websocket.js:111-136 | After two hidden notifications, visible cancels only the second timer. The first timer still suspends delivery when it fires. |
| Suspension.OrphanFiringUnhooksNewerTimer | src/service/websocket.js:111-135 | When the orphaned timer fires first, the following visible warns (unless there was an error) but cancels nothing. The newer timer then suspends delivery again. |
| ClientProperties.StepConservesFrames | src/service/websocket.js:141-165 | Each frame an event hands to `send` either goes out during that event or joins the end of the queue, in order. |
| ClientProperties.StepGatesFrames | src/service/websocket.js:36-39 | Before the socket opens, no event other than open transmits anything. |
| ClientProperties.StepTopicKeys | src/service/websocket.js:150-196 | Only `subscribe` adds a topic, and no event removes one. |
| ClientProperties.StepOnlyTimerSuspends | src/service/websocket.js:111-116 | Delivery becomes suspended only when an armed timer fires. |
| ClientProperties.StepSuspendedDropsInbound | src/service/websocket.js:84-87 | While delivery is suspended, an inbound frame changes nothing and runs no callback. |
| ClientProperties.StepErrorSilences | src/service/websocket.js:54-65 | "Closed" comes only from a close event, and the suspension warning only from a visible event. Neither is notified once an error has occurred. |
| ClientProperties.RunPreservesValid | src/service/websocket.js:29-197 | Every reachable client keeps the bookkeeping invariant: an open gate has an empty queue, timer identities are fresh, and wrapper serials are fresh. |
| ClientProperties.FramesLeaveInCallOrder | src/service/websocket.js:141-147 | Over any event sequence, the transmitted frames followed by the frames still queued are exactly the frames queued before plus every frame handed to `send` since, in call order. Each frame is transmitted at most once. |
| ClientProperties.NothingTransmittedBeforeOpen | src/service/websocket.js:36-39 | A sequence without an open event transmits nothing and leaves the gate closed. |
| ClientProperties.OpenIsPermanent | src/service/websocket.js:36-39 | After a run, the gate is open exactly when it was open before or the run contains an open event. |
| ClientProperties.EveryFrameTransmittedOnceOpen | src/service/websocket.js:36-147 | Once a run has opened the socket, every frame ever handed to `send` has been transmitted exactly once and in call order. Frames queued before the open come first. |
| ClientProperties.ErrorIsSticky | src/service/websocket.js:52-78 | After a run, the error flag is set exactly when it was set before or the run contains an error event. Nothing resets it. |
| ClientProperties.ErrorSilencesLaterNotices | src/service/websocket.js:54-129 | Once the error flag is set, no later event notifies "closed" or the suspension warning. |
| ClientProperties.RegisteredIffSubscribed | src/service/websocket.js:150-196 | After a run, a topic has an entry exactly when it had one before or the run subscribed to it. Entries are never removed. |
| ClientProperties.OutboundSubscribeFrames | src/service/websocket.js:156-160 | An event hands the subscribe frame for a topic to `send` only when the event is a subscription to that topic and the topic had no entry. |
| ClientProperties.OneSubscribeFramePerTopic | src/service/websocket.js:150-165 | Over any run, the subscribe frame for a topic is handed to `send` once if the run created the topic's entry, and never otherwise. |
| ClientProperties.OnlyTimersSuspend | src/service/websocket.js:82-116 | If delivery goes from active to suspended during a run, a timer fired in that run. |
| ClientProperties.DetachAppend | src/service/websocket.js:179-183 | Destroying a scope runs its listeners in registration order. Listeners registered later act after earlier ones. |
| ClientProperties.DetachOtherScopes | src/service/websocket.js:179-183 | Destroying a scope leaves the callbacks of other scopes' listeners untouched. |
| ClientProperties.DetachOnlyLast | src/service/websocket.js:179-183 | When a scope's only listener is the last one registered, destroying the scope only unsubscribes that listener's wrapper. |
| ClientProperties.ScopedSubscribeShape | src/service/websocket.js:168-183 | A scoped subscription registers a wrapper that was not yet in the topic's list, and records its `$destroy` listener at the end. |
| ClientProperties.ScopedSubscriptionUndoneByDestroy | src/service/websocket.js:168-183 | Subscribing with a fresh scope and then destroying that scope restores the topic's callback list. Only the entry remains, and the other listeners are unchanged. |
| ClientProperties.SubscriptionUndoneByUnsubscribe | src/service/websocket.js:186-196 | Unsubscribing a callback that was subscribed without a scope, and was not registered before, restores the topic's callback list. |
| ClientProperties.BareSubscribeShape | src/service/websocket.js:186-187 | A subscription without a scope runs no callback and appends the bare callback. It leaves the timers unchanged. |
| ClientProperties.InboundInvokesTargets | src/service/websocket.js:93-106 | While delivery is on, a frame for a registered topic runs that topic's callbacks, position by position. |
| ClientProperties.DeliveredAfterSubscribe | src/service/websocket.js:93-106 | A frame for a topic just subscribed to runs the topic's earlier callbacks in order and then the new one. Each runs once. |
| ClientProperties.DigestedAfterScopedSubscribe | src/service/websocket.js:168-176 | A frame for a topic just subscribed to with a scope digests the scopes of the topic's earlier wrapped callbacks in order, and then the new subscription's scope. |
| ClientProperties.NotDeliveredAfterUnsubscribe | src/service/websocket.js:191-196 | After `unsubscribe`, a frame for the topic no longer runs the callback, unless a scope's wrapper still holds it. |
| ClientProperties.HiddenPastDelayDropsFrames | src/service/websocket.js:84-116 | If the page is hidden long enough for the timer to fire, an inbound frame for any topic runs nothing. |
| ClientProperties.VisibleBeforeDelayKeepsDelivering | src/service/websocket.js:111-136 | If the page becomes visible before the delay, there is no warning and delivery stays on. The cancelled timer changes nothing when it fires. |
| ClientProperties.VisibleAfterSuspensionWarnsOnce | src/service/websocket.js:111-131 | If the page becomes visible after suspension, exactly one warning is notified unless an error has occurred. Delivery resumes either way. |
| ClientProperties.FreshClientSubscribes | src/service/websocket.js:150-165 | The first subscription on a new client registers the topic with its callback and queues the subscribe frame. Nothing is transmitted. |
| ClientProperties.SoleCallbackRuns | src/service/websocket.js:105 | A topic whose only callback is bare runs exactly that callback on the frame's data. |
| ClientProperties.SoleCallbackRemoved | src/service/websocket.js:191-196 | Unsubscribing a topic's only callback leaves the entry with an empty list. |
| ClientProperties.EmptyTopicSilent | src/service/websocket.js:93-106 | A registered topic with no callbacks left runs nothing. |
| ClientProperties.PricesScenario | src/service/websocket.js:84-196 | The sequence subscribe to "prices", receive 42, unsubscribe, receive 42 runs the callback exactly once. The subscribe frame waits in the queue, and "prices" keeps an empty entry. |

## Left out

- The WebSocket transport, `$window` and the `visibly` factory are external. Their notifications are `Event`s and `socket.send` is the `Transmit` effect.
- `$q` is not modelled. A `send` made after the socket has opened is transmitted within the same step. In the source it goes out at the next digest, still in call order.
- `$rootScope.$apply()` in the open handler is not modelled. Its only role here is to run the queued sends, which `OnOpen` does directly.
- `$timeout` timing is not modelled. `visibilityTimeout` is stored but elapses only as a `TimerFires` event. No ordering among timer firings is imposed.
- `JSON.stringify` and `JSON.parse` are not modelled. Outbound frames are `Message` values, and inbound frames arrive already split into topic and data. Malformed JSON and frames without a topic are left out. In the source the latter look up the key `"undefined"`.
- The `WS_DEBUG` tracing and all `$log.debug` calls are diagnostics and are left out.
- Notification titles, texts, types and delays are left out; only the kind of notice is kept.
- The provider setters (`setVisibilityTimeout`, `setWebSocketURL`, `setWebSocketObject`) become the fields of `Config`.
- Only string URLs are modelled. The truthiness of any other URL value is left out.
- `topicMap` is a plain map. Inherited object keys such as `"constructor"` are not treated as present.
- A callback that throws is not modelled; every callback returns. How `jQuery.Callbacks` behaves when a callback changes the list while it is firing is also left out.
- AngularJS scope structure is left out. A `$destroy` event is modelled for one scope at a time; broadcasting to child scopes and listening on an already destroyed scope are not modelled.
- WebSocketClient.SendMessage: treats a send after open as immediate, as described above for `$q`.

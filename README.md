# redis-channels, modelled in Dafny

This project models the in-process router of `redis-channels`. The router sits in front of a Redis publish/subscribe client. It has two parts.

- **Gevent** (`lib/gevents.js`) is an event emitter that dispatches by glob pattern.
  - It keeps a registry from pattern keys to ordered listener lists. These are the operations it inherits from Node's `EventEmitter`: `on`, `removeListener`, `removeAllListeners` and `listeners`.
  - `emit(event, ...args)` captures the current keys and queues one deferred task per key on the next tick.
  - When a task runs, it tests the event name against its key. On a match it calls the listeners that key has at that moment, with the emitted arguments.
- **Channels** (`lib/channels.js`) is the router built on a Gevent.
  - `on(names..., callback)` registers one callback under several names.
  - `subscribe`/`psubscribe` split off an optional trailing callback, register it (or the empty function) under every channel, and issue one transport command.
  - `unsubscribe`/`punsubscribe` remove listeners, then issue one transport command for a batch of channels.
  - `publish` forwards to the transport.
  - Inbound `message`/`pmessage` notifications become glob emits of `(channel, channel, data)`, optionally JSON-decoded.
  - The `ready` flag is set once the client is ready.

Modules:

- `Values` holds the JavaScript values the router can tell apart: strings, functions and anything else. Listeners are `Noop`, the empty function `_sub` defaults to, or `Callback(id)`.
- `Glob` is a matcher for literals, `*`, `?`, `[...]` and `[!...]`, with lemmas for the patterns the tests use.
- `Registry` holds the inherited `EventEmitter` registry operations, as functions over an insertion-ordered map. Its invariant says:
  - keys are distinct and are exactly the map's domain;
  - no key is kept with an empty list.
- `Gevents` is the class `Gevent`. Its fields are the registry, an explicit FIFO `queue` standing in for `process.nextTick`, and an `invoked` log of listener calls. `Emit` is a loop over the captured keys; `RunNextTask` runs one queued task.
- `Router` is the class `Channels`. It holds its `Gevent` as a field. It also holds the ready flag, whether a `ready` handler is still attached to the client, and an append-only `log` of the commands sent to the transport. The functions beside it specify argument splitting, multi-name registration, and the unsubscribe state and batch.

Inbound `message`, `pmessage` and the client's `ready` event are methods the environment calls. `JSON.parse` is a decoder given to the constructor: a total function returning `None` where `JSON.parse` would throw.

## Model

| member | source | states |
|---|---|---|
| Glob.GlobMatch | lib/gevents.js:52 | the stand-in for `minimatch(event, name)`. An empty pattern matches only the empty name. A pattern not starting with `*` needs at least one character. The empty name matches only patterns made of `*` alone |
| Glob.LiteralMatchesOnlyItself | lib/gevents.js:52 | a key with no `*`, `?` or `[` matches exactly the event name equal to it, so such keys behave as in a normal emitter under this matcher |
| Glob.StarMatchesEverything | lib/gevents.js:52 | the key `*` matches every event name |
| Glob.LiteralPrefixStar | lib/gevents.js:52 | a literal prefix followed by `*` matches every name that starts with that prefix |
| Glob.LiteralPrefixNeedsMore | lib/gevents.js:52 | a name does not match a pattern that requires one more literal character after all of the name |
| Glob.LiteralExample | test.js:95-98 | `Gevent.foo` matches itself and not `Gevent.bar` |
| Glob.LongerNameExample | test.js:110-113 | the plain key `Gevent.foo` does not match the event `Gevent.foo.bar` |
| Glob.DottedStarExample | test.js:110-113 | `Gevent.foo.*` matches `Gevent.foo.bar` and not `Gevent.foo` |
| Glob.FooStarExample | test.js:61-68 | `foo.*` matches `foo.bar` |
| Glob.QuestionExample | test.js:72-75 | `a?c` matches `abc` |
| Glob.StarExample | test.js:72-76 | `w*t` matches `what` |
| Glob.ClassExample | test.js:72-77 | `c[o]w` matches `cow` and not `caw`; `c[!o]w` matches `caw` |
| Glob.InfixExample | test.js:52-58 | `*il*` matches `milk` |
| Registry.Empty | lib/gevents.js:21-23 | a new emitter has no keys and satisfies the registry invariant |
| Registry.On | lib/channels.js:69 | `on` appends the listener to the end of the key's list. Every other key is unchanged. A new key goes after all existing keys. The invariant is kept |
| Registry.Listeners | lib/channels.js:163 | `listeners` never returns an absent value: a key with no entry gives the empty list |
| Registry.RemoveLast | lib/channels.js:160 | the splice inside `removeListener`. An absent listener leaves the list unchanged. Otherwise exactly one instance goes (the multiset loses one `l`), everything before the last instance stays in place, everything after it keeps its order, and no instance remains from that position on |
| Registry.WithoutSplice | lib/channels.js:161 | removing a key from the distinct key list splices it out at its position, so the other keys keep their insertion order |
| Registry.LastIndexOf | lib/channels.js:160 | finds the last occurrence of a listener (no later occurrence exists), or -1 exactly when the listener is absent |
| Registry.RemoveListener | lib/channels.js:160 | `removeListener` removes the most recently added instance from the key's list. Other keys are unchanged. The registry is unchanged when the listener is absent. The key list stays as it was while the key keeps a listener; a key whose list empties is spliced out of the key list, the others keeping their order. The invariant is kept |
| Registry.Drop | lib/channels.js:161 | a key's entry is removed and the key is spliced out of the key list, the others keeping their order. The other lists are unchanged. Nothing changes when the key is absent |
| Registry.RemoveAllListeners | lib/channels.js:161 | `removeAllListeners` leaves the key with no listeners, the other lists unchanged, and the remaining keys in their order |
| Registry.ListenersEmptyIffAbsent | lib/channels.js:163 | `listeners` returns an empty list exactly when the key is not registered |
| Registry.RemoveListenerUndoesOn | lib/channels.js:159-160 | `removeListener` after `on` of the same listener restores the registry exactly, key order included |
| Registry.RemoveAllAfterOn | lib/channels.js:161 | `removeAllListeners` after `on` gives the same registry as `removeAllListeners` alone |
| Gevents.Dispatch | lib/gevents.js:51-54 | a task calls nothing unless its event name matches its key. On a match it calls each listener the key has when the task runs, in registration order. Each call receives exactly the emitted arguments: neither the event name nor the key is prepended |
| Gevents.DispatchAfterRemoveAll | lib/gevents.js:51-53 | a task whose key lost all its listeners before it ran calls nothing |
| Gevents.DispatchSeesLaterOn | lib/gevents.js:51-53 | a listener added to a matching key after `emit` but before the task runs is called, last |
| Gevents.DispatchIgnoresOtherKeys | lib/gevents.js:53 | `on`, `removeListener` and `removeAllListeners` on other keys do not change what a task calls |
| Gevents.Gevent.constructor | lib/gevents.js:21-23 | a new emitter has an empty registry, no queued tasks and no calls |
| Gevents.Gevent.On | lib/gevents.js:29 | the inherited `on` updates the registry as `Registry.On` and leaves the queue and the calls alone |
| Gevents.Gevent.RemoveListener | lib/channels.js:160 | the inherited `removeListener` updates the registry as `Registry.RemoveListener` and nothing else |
| Gevents.Gevent.RemoveAllListeners | lib/channels.js:161 | the inherited `removeAllListeners` updates the registry as `Registry.RemoveAllListeners` and nothing else |
| Gevents.Gevent.Listeners | lib/channels.js:163 | the inherited `listeners` returns the key's list, never absent, and empty exactly when the key is unregistered |
| Gevents.Gevent.Emit | lib/gevents.js:45-58 | `emit` appends exactly one task per key registered at call time, in key order, each carrying the event and the arguments after it. It calls no listener, leaves the registry unchanged, and returns the emitter itself |
| Gevents.Gevent.RunNextTask | lib/gevents.js:51-55 | runs the task at the queue's head exactly when the queue is non-empty. It removes that task, appends the calls `Dispatch` gives for the current registry, and leaves the registry unchanged |
| Gevents.KeepsAllArgs | test.js:100-108 | on a fresh emitter, no call happens at `emit` time; when the task runs, the listener gets exactly `a`, `b`, `c` |
| Gevents.GlobPattern | test.js:110-113 | with keys `Gevent.foo` and `Gevent.foo.*`, emitting `Gevent.foo.bar` queues two tasks, and only the glob's listener is called |
| Gevents.UnsubscribeNormally | test.js:115-122 | in the test's order: the task of the first emit runs before the test's next-tick callback and calls the listener once. The callback's `removeAllListeners` and second emit then queue nothing and call nothing more. The emitter is fresh; test.js shares one emitter across its tests, so there the second emit still queues non-matching tasks for the other tests' keys |
| Gevents.UnsubscribeBeforeRun | lib/gevents.js:51-53 | listeners are looked up when the task runs: removing all listeners between `emit` and its task means nothing is called, and a later emit queues nothing |
| Gevents.LateRegistration | lib/gevents.js:48 | a pattern registered after `emit` gets no task from it, even one that would match |
| Router.SplitCallback | lib/channels.js:124-129 | the last argument is taken as the callback exactly when it is a function. All the other arguments, and only those, are the channel names, in order |
| Router.JoinSplitCallback | lib/channels.js:127-128 | splitting loses nothing: the channel names followed by the callback, if any, are the original arguments |
| Router.SplitCallbackJoin | lib/channels.js:155-156 | every channel list with an optional callback splits back into itself |
| Router.OnAll | lib/channels.js:131-133 | registering one listener under a list of names keeps the registry invariant |
| Router.OnAllListeners | lib/channels.js:131-133 | registering `l` under `names` appends one copy of `l` to a key's list per occurrence of the key in `names`. Every other key keeps its listeners |
| Router.MultipleChannelsExample | test.js:41-49 | subscribing one callback to `one`, `two`, `three` gives each channel exactly that callback |
| Router.CountPositiveIffIn | lib/channels.js:131-133 | a key occurs in the list of names exactly when its occurrence count is positive |
| Router.OnAllChangesExactlyNamed | lib/channels.js:131-133 | registering under a list of names changes a key's listeners exactly when the key is named |
| Router.Unlisten | lib/channels.js:159-161 | one unsubscribe step keeps the registry invariant |
| Router.UnsubState | lib/channels.js:158-162 | unsubscribing a list of channels keeps the registry invariant |
| Router.UnsubBatch | lib/channels.js:153-166 | the `unsubs` array: for a guard, the listed channels, in order, that pass it right after their own removal. It holds only listed channels and is no longer than the list |
| Router.ArrayIsFalsy | lib/channels.js:163 | the guard as written, `!self.listeners(channel)`: an array is never falsy, so it is false whatever the array holds |
| Router.NoListenerLeft | lib/channels.js:195-196 | the documented guard: true exactly when the channel has no listener left |
| Router.AsWrittenBatchIsEmpty | lib/channels.js:163-165 | with the guard as written, `!listeners(channel)` on an array, no channel is ever put into the unsubscribe batch |
| Router.UnlistenKeepsEmpty | lib/channels.js:159-161 | an unsubscribe step never gives a key listeners back |
| Router.UnsubKeepsUnlisted | lib/channels.js:158-161 | a channel that is not listed keeps its listeners |
| Router.UnsubAllEmptiesListed | lib/channels.js:161 | without a callback, every listed channel ends with no listeners |
| Router.UnsubOneRemovesOne | lib/channels.js:160 | with a callback, a channel listed once loses exactly the most recently added instance of that callback |
| Router.CorrectedBatchIsExact | lib/channels.js:192-196 | with the documented guard, a channel enters the batch exactly when it is listed and has no listener left once the unsubscribe completes |
| Router.AsWrittenBatchOmitsEmptiedChannel | lib/channels.js:163-167 | removing the only listener of `foo` empties it. The batch as written is empty, where the documented guard gives `["foo"]` |
| Router.Inbound | lib/channels.js:104-111 | an empty channel is ignored. A string payload is decoded exactly when `toJSON` is set, and a failed decode throws. Any other payload is delivered unchanged |
| Router.Channels.constructor | lib/channels.js:22-47 | when the client is already ready, the router is ready when construction ends. Otherwise it is not ready and a `ready` handler is attached. The log is empty and the registry has no keys |
| Router.Channels.BecomeReady | lib/channels.js:28-31 | the ready callback sets the flag and emits `ready` through the glob emitter: one task per key |
| Router.Channels.ClientReady | lib/channels.js:46 | the client's `ready` event sets the flag and emits `ready` only when the constructor attached the handler; otherwise nothing changes |
| Router.Channels.On | lib/channels.js:63-72 | the last argument is always popped as the listener. A function is registered under every name before it, in order. A non-function throws before anything is registered, unless there are no names. No transport command is issued |
| Router.Channels.Sub | lib/channels.js:121-138 | registers the callback, or `noop` when none is given, under every channel in order. It then logs exactly one SUBSCRIBE/PSUBSCRIBE with the channel list, callback stripped |
| Router.Channels.Unsub | lib/channels.js:148-170 | removes the callback, or all listeners, from each listed channel in order. It logs exactly one UNSUBSCRIBE/PUNSUBSCRIBE, whose channel list is empty |
| Router.Channels.UnsubCorrected | lib/channels.js:192-201 | the same removals, then one command listing exactly the listed channels left without listeners |
| Router.Channels.UnsubWith | lib/channels.js:150-168 | for any guard, the registry ends as `UnsubState`. The one logged command carries the channels the guard selects, in order, each tested right after its own removal |
| Router.Channels.UnlistenChannel | lib/channels.js:159-163 | one pass of the unsubscribe loop: removal on one channel, then reading back what it has left |
| Router.Channels.Publish | lib/channels.js:78-81 | logs exactly one publish with the given arguments and touches neither the registry nor the queue |
| Router.Channels.Message | lib/channels.js:104-111 | an empty channel queues nothing. A decode failure throws and queues nothing. Otherwise the channel is emitted with the arguments `(channel, data)`. The registry is unchanged |
| Router.Channels.PMessage | lib/channels.js:92-94 | the pattern is discarded; the effect and the outcome are those of `Message` |
| Router.SubscribeThenMessage | test.js:22-29 | `subscribe('foo', cb)` logs one SUBSCRIBE of `foo`; an inbound `hello` on `foo` calls `cb('foo', 'hello')` |
| Router.OnThenSubscribe | test.js:31-39 | `on('bar', cb)` issues no command. `subscribe('bar')` adds `noop` behind `cb`. A message calls both, `cb` first |
| Router.PatternMessage | test.js:51-59 | a `pmessage` for `milk` reaches the listeners of `*il*` with `('milk', 'chocolate')`; one PSUBSCRIBE is logged |
| Router.ReadyAfterConnect | test.js:14-16 | a router built before the client is ready is not ready. A `ready` listener attached then is called once the client signals readiness |
| Router.UnsubscribeLastListener | lib/channels.js:158-167 | unsubscribing the only callback of `foo` empties it locally, yet the logged UNSUBSCRIBE has no channel |

## Left out

- The Redis client and transport (connection, `client.on` handlers, `client[method].apply`, `client.publish`) are network I/O. Issued commands are an append-only log. Inbound events are method calls.
- `JSON.parse` is a foreign function. It is a decoder passed to the constructor, where `None` stands for a throw. The thrown exception is the status `ParseError`.
- `minimatch` is not part of this model. `GlobMatch` covers literals, `*`, `?`, `[...]` and `[!...]` only. It does not claim minimatch's path-segment rule for `/`, its leading-dot rule, ranges and escapes in classes, braces, `**` or `!` negation.
- Glob.LiteralMatchesOnlyItself: some keys pass `IsLiteral` that minimatch does not read literally. These are backslash escapes outside classes, a leading `#` (a comment pattern that matches nothing), extglobs `+(...)`, `@(...)` and `!(...)`, `[^...]` negation, and a `]` placed first in a class. minimatch also trims its pattern, so a key with surrounding spaces does not match itself there, and a key of spaces only matches only the empty name. For such keys the lemma is about this matcher only.
- Glob.StarMatchesEverything: minimatch's `*` does not match an empty name, so the lemma's case of the name `""` holds for this matcher only.
- Router.SplitCallback: `Fn` is a value tagged `[object Function]`, the test of lib/channels.js:127 and :155. Node's `on` also accepts async and generator functions, which fail that test. The model has no value of that kind (`Other` is never callable), so it does not show `subscribe('a', asyncFn)` taking the function as a channel name, nor `on('a', asyncFn)` registering it.
- `process.nextTick` timing is not modelled. The queue is an explicit FIFO advanced by `RunNextTask`, and only the emitter's own tasks are in it. Other code's ticks are not interleaved.
- Node `EventEmitter` extras are left out: `newListener`/`removeListener` events, the `maxListeners` warning, and the `error` event. In particular, no throw is modelled when an `error` task matches a key that has no listeners.
- Listener bodies are left out. A listener's effect is only recorded as a call, so a listener that re-enters the router, throws, or changes the registry during a dispatch is not modelled.
- `Object.keys` lists integer-like keys before the others. Key order here is plain insertion order.
- Router argument types are narrower than JavaScript's. Every channel argument of `on`, `subscribe` and `unsubscribe` is a string, as documented, and non-string channels are excluded by the preconditions. A falsy `channel` in `message` is the empty string only.
- Router.Channels.On: the thrown `TypeError` for a non-function listener is the status `NotAFunction`. Node's exact error object is not modelled.
- Router.Channels.ClientReady: the handler stays attached. Every later client `ready` event sets the flag and emits `ready` again, rather than only the first.
- Router.Channels.Publish: the arguments are forwarded as a whole. The client's own argument handling is not modelled.
- Prototype inheritance and the `_sub`/`_unsub` method factories are replaced by composition and a command-kind parameter: `Subscribe`/`PSubscribe`, `Unsubscribe`/`PUnsubscribe`.

## Findings

| source | as written | input that shows it | evidently intended | confidence | as-written member | corrected member |
|---|---|---|---|---|---|---|
| lib/channels.js:163-167 | `if (!self.listeners(channel)) unsubs.push(channel)`: `listeners` always returns an array, and every array is truthy, so no channel is ever pushed and UNSUBSCRIBE/PUNSUBSCRIBE is always sent with no channel. In Redis an UNSUBSCRIBE with no channel drops every channel subscription of the client, and a PUNSUBSCRIBE with no pattern drops every pattern subscription | `subscribe('foo', cb)` then `unsubscribe('foo', cb)`: `foo` has no listener left, yet the command sent has no channel | per the documentation at lib/channels.js:192-196, a channel is unsubscribed when its last listener is removed: the batch is the listed channels left without listeners | not executed | Router.AsWrittenBatchOmitsEmptiedChannel | Router.CorrectedBatchIsExact |

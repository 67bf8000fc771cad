# Bus cache and proxy control, modelled in Dafny

This project models two parts of a TypeScript publish/subscribe message bus.

**The bus cache (`CacheImpl`).** It is a keyed store that re-publishes every mutation as a
state-change message. `encache` and `remove` send the change twice: first on the cache's
aggregate channel `cache-change-<uuid>`, then on the key's own channel `cache-object-<id>`.
`remove` also closes the key's channel. `populateCache` seeds an empty cache wholesale,
`retrieve` reads and `resetCache` clears, and none of these three broadcasts anything.
Two subscriptions read these broadcasts back:

- `notifyOnChange(id, type)` yields the values of changes of that type on the key's channel.
- `notifyOnAllChanges(sample, type)` yields the values of changes of that type on the
  aggregate channel whose top-level key set matches the sample's (`compareKeys`).

The bus is modelled as an append-only log of sends and closes. A subscription attached when
the log had `since` entries is a left fold over the rest of the log. It completes at the
first close of its channel and fails when `compareKeys` throws. Values are a small
JavaScript value type, so `Object.keys` can be modelled exactly:

- `undefined` and `null` throw;
- booleans and numbers have no keys;
- strings have one index name per UTF-16 code unit, so a character outside the basic
  multilingual plane counts twice;
- arrays have one index name per element;
- objects have their property names.

**The proxy control (`IFrameProxyControl`).** It is the live authorization policy of the
cross-frame message proxy, made of four parts:

- the allowed origins;
- the targeted frames;
- the authorized channels;
- the all-frames request and the listening switch.

It has mutators for each part and an inbound pipeline that classifies raw message events.
The pipeline checks, in this order:

1. an unregistered origin, which is refused with a warning;
2. empty data, which is ignored at debug level;
3. data that is not a bus envelope, which is ignored at debug level;
4. a channel that is not authorized.

Only a message that passes all four checks is injected into the local bus, exactly once.
The behaviour is taken from src/proxy/proxy.control.spec.ts.

`isTargetingAllFrames` holds only when all frames were requested and no explicit frame is
targeted. The rule is asymmetric over time:

- A request made while a frame is targeted is dropped. Removing that frame later does not
  turn all-frames targeting on; only a new request does.
- A request made with no frame targeted is kept. Adding a frame turns all-frames targeting
  off, and removing that frame again turns it back on.

Files:

- `wrappers.dfy` holds `Option`.
- `seqs.dfy` holds ordered removal and filtering.
- `js_values.dfy` holds the value model and `Object.keys`.
- `key_order.dfy` holds string order and sorting.
- `shape.dfy` holds `compareKeys`.
- `channels.dfy` holds the channel names.
- `bus_log.dfy` holds the bus log records.
- `cache.dfy` holds the cache operations.
- `cache_streams.dfy` holds the two subscriptions.
- `cache_notify.dfy` connects mutations to subscribers.
- `cache_run.dfy` covers arbitrary command sequences.
- `proxy_control.dfy` holds the policy and its mutators.
- `proxy_inbound.dfy` holds inbound classification.

## Model

| member | source | states |
|---|---|---|
| Channels.ObjectChannel | src/bus/cache/cache.ts:21-23 | the per-key channel is the prefix `cache-object-` followed by exactly the key |
| Channels.ObjectIdOf | src/bus/cache/cache.ts:21-23 | a channel name is a per-key channel iff it carries the prefix, and the key read back from it rebuilds the same name |
| Channels.ObjectIdRoundTrip | src/bus/cache/cache.ts:21-23 | reading the key back from a key's channel yields that key |
| Channels.ObjectChannelInjective | src/bus/cache/cache.ts:21-23 | two keys share a channel iff they are the same key |
| Channels.ChangeChannel | src/bus/cache/cache.ts:19 | the aggregate channel is `cache-change-` followed by exactly the drawn uuid |
| Channels.ChannelFamiliesDisjoint | src/bus/cache/cache.ts:19-23 | no per-key channel is ever an aggregate channel |
| CacheNotify.ChangeChannelIsNotObjectChannel | src/bus/cache/cache.ts:19-23 | in a valid cache, the aggregate channel differs from every key's channel |
| BusCache.NewCache | src/bus/cache/cache.ts:18-27 | a new cache is empty, has broadcast nothing, uses `cache-change-<uuid>`, and satisfies the cache invariant |
| BusCache.SendChangeBroadcast | src/bus/cache/cache.ts:29-45 | the entries stay the same; the log grows by the same change sent on the aggregate channel and then on the key's channel, both from `BusCache`; the invariant is kept |
| BusCache.PopulateCache | src/bus/cache/cache.ts:47-53 | it succeeds iff the cache is empty; on success the entries become the items; on failure the cache is unchanged; it never broadcasts |
| BusCache.Encache | src/bus/cache/cache.ts:55-58 | afterwards `retrieve(id)` is the new value and every other key reads as before; the key set gains `id`; exactly the two broadcasts carrying the new value are appended |
| BusCache.Retrieve | src/bus/cache/cache.ts:60-62 | a value is found iff the key is present, and it is the stored one |
| BusCache.Remove | src/bus/cache/cache.ts:64-72 | it returns true iff the key was present; an absent key changes nothing at all; a present key is deleted while every other key is kept, and the log grows by the two broadcasts carrying the removed value and then the close of the key's channel |
| BusCache.ResetCache | src/bus/cache/cache.ts:133-135 | every key reads as absent afterwards; nothing is broadcast |
| CacheRun.RetrieveIsPureRead | src/bus/cache/cache.ts:60-62 | a lookup changes neither the entries nor the log |
| CacheRun.RunPreservesValid | src/bus/cache/cache.ts:47-135 | every sequence of cache operations keeps the invariant: each logged operation is a `BusCache` send on the aggregate channel or on the channel of the key it carries, or a close of a per-key channel |
| CacheRun.RunExtendsLog | src/bus/cache/cache.ts:47-135 | every sequence of operations only appends to the bus log and keeps the aggregate channel |
| CacheRun.RetrieveSeesLastWrite | src/bus/cache/cache.ts:55-72 | after any sequence of encache, retrieve, remove and reset without bulk seeding, `retrieve(id)` agrees with an independent definition: the last value encached under `id`, or nothing once it was removed or the cache reset |
| CacheStreams.OnChangeFeed | src/bus/cache/cache.ts:74-96 | a per-key subscriber never fails, and each value it receives was carried by a send on its channel with its change type |
| CacheStreams.NotifyOnChange | src/bus/cache/cache.ts:74-96 | a subscriber attached at `since` receives only values sent on the key's channel with exactly its change type at or after `since` |
| CacheStreams.OnChangeIsFilterUntilClose | src/bus/cache/cache.ts:74-96 | the subscription is exactly an independent definition: the matching values sent before the first close of the channel, in log order; it has completed iff the channel was closed |
| CacheStreams.EndedFeedIsFinal | src/bus/cache/cache.ts:74-96 | once the stream has completed, no later traffic changes what it delivered |
| CacheStreams.OnAllFeed | src/bus/cache/cache.ts:98-131 | each value a shape subscriber receives has the sample's key set and was sent on its channel with its change type |
| CacheStreams.OnAllStepGrows | src/bus/cache/cache.ts:108-128 | one bus operation either delivers nothing new or delivers the value of a matching send whose keys match the sample's |
| CacheStreams.NotifyOnAllChanges | src/bus/cache/cache.ts:98-131 | a subscriber attached at `since` receives only values of its change type sent on the aggregate channel at or after `since`, each with the sample's key set |
| CacheStreams.OnAllIsFilterUntilClose | src/bus/cache/cache.ts:98-131 | the subscription is exactly an independent definition: the matching values of the sample's shape sent before the first close, in log order, cut at the first matching value on which `compareKeys` throws; the stream has failed iff there is such a value, and otherwise has completed iff the channel was closed |
| CacheStreams.KeylessSampleDeliversNothing | src/bus/cache/cache.ts:116-122 | with a `null` or `undefined` sample, `Object.keys` throws, so nothing is ever delivered |
| CacheNotify.EncacheNotifies | src/bus/cache/cache.ts:55-96 | after `encache`, a live per-key subscriber receives the new value iff it watches that key and that change type; otherwise its stream is unchanged |
| CacheNotify.RemoveNotifies | src/bus/cache/cache.ts:64-96 | after `remove` of a present key, that key's subscriber receives the removed value (if still live and the type matches), and then its stream completes |
| CacheNotify.RemoveIsInvisibleToOtherKeys | src/bus/cache/cache.ts:64-96 | removing one key leaves every other key's subscription exactly as it was |
| CacheNotify.NotifyOnChangeOnlyKey | src/bus/cache/cache.ts:74-93 | every value a `notifyOnChange(id, t)` subscriber receives was broadcast by the cache for that same key with type `t`, never for another key |
| CacheNotify.CompletedSubscriptionIsFinal | src/bus/cache/cache.ts:64-96 | a per-key subscription whose channel was closed stays exactly as it was, whatever the cache does afterwards |
| CacheNotify.EncacheNotifiesAll | src/bus/cache/cache.ts:98-131 | after `encache`, a live shape subscriber of the right type receives the new value iff its keys match the sample's; the stream fails if `compareKeys` throws; otherwise nothing changes |
| CacheNotify.RemoveNotifiesAll | src/bus/cache/cache.ts:98-131 | after `remove`, a shape subscriber sees the removed value under the same rule; closing the key's channel does not end the aggregate stream |
| JsValues.ObjectKeys | src/bus/cache/cache.ts:117-118 | `Object.keys` throws exactly on `undefined` and `null`; it is empty for booleans and numbers, one index name per UTF-16 code unit for strings, one per element for arrays, and the property names for objects |
| KeyOrder.SortStrings | src/bus/cache/cache.ts:117-118 | the sorted keys are in order and are a permutation of the input |
| KeyOrder.SortedUnique | src/bus/cache/cache.ts:117-118 | two sorted permutations of the same keys are equal, so the result does not depend on the sorting algorithm |
| KeyOrder.SortEqualIffSameKeys | src/bus/cache/cache.ts:117-119 | two key lists sort to the same list iff they hold the same keys with the same multiplicities |
| Shape.CompareKeys | src/bus/cache/cache.ts:116-120 | `compareKeys` throws iff either side is `undefined` or `null` |
| Shape.CompareKeysMeaning | src/bus/cache/cache.ts:116-120 | when neither side throws, `compareKeys` holds iff both sides own the same keys, whatever order `Object.keys` lists them in |
| Shape.ShapeIsEquivalence | src/bus/cache/cache.ts:116-120 | on values with keys, `compareKeys` is reflexive, symmetric and transitive |
| Shape.KeyOrderIrrelevant | src/bus/cache/cache.ts:116-120 | reordering an object's properties never changes its shape |
| Shape.ValuesIrrelevant | src/bus/cache/cache.ts:116-122 | only property names matter to the shape test, never property values |
| Shape.ShapeIsKeySetEquality | src/bus/cache/cache.ts:116-120 | for objects without repeated names, `compareKeys` holds iff the two key sets are equal |
| Shape.StringShapes | src/bus/cache/cache.ts:116-120 | two strings have the same shape iff they have the same length in UTF-16 code units |
| Shape.AstralCharIsTwoUnits | src/bus/cache/cache.ts:116-120 | a single character outside the basic multilingual plane has the same shape as the two-letter string `"ab"` |
| JsValues.Utf16LengthBmp | src/bus/cache/cache.ts:117 | for a string inside the basic multilingual plane, the UTF-16 length is the number of characters |
| Shape.StringLooksLikeIndexedObject | src/bus/cache/cache.ts:116-120 | the test is coarse: `"ab"` has the same shape as an object with keys `"1"` and `"0"` |
| Shape.NullSampleThrows | src/bus/cache/cache.ts:116-120 | a `null` sample makes `compareKeys` throw whatever it is compared with |
| ProxyControl.EnableMessageProxy | src/proxy/proxy.control.spec.ts:25-40 | the new control is listening and holds the configured origins, channels and frames (none when `targetSpecificFrames` is null); it targets all frames iff that was asked for and no frame is targeted |
| ProxyControl.StopListening | src/proxy/proxy.control.spec.ts:51-53 | listening is off afterwards and nothing else in the policy changes |
| ProxyControl.StartListening | src/proxy/proxy.control.spec.ts:51-53 | this is the counterpart of `stopListening`: listening is on afterwards and nothing else changes |
| ProxyControl.AddAllowedTargetOrigin | src/proxy/proxy.control.spec.ts:56-58 | the origin is appended after the existing ones, and nothing else changes |
| ProxyControl.RemoveAllowedTargetOrigin | src/proxy/proxy.control.spec.ts:61-63 | the origin is gone, every other origin is present iff it was before, and nothing else changes |
| ProxyControl.AddTargetedFrame | src/proxy/proxy.control.spec.ts:68-77 | the frame is appended after the existing ones; all-frames targeting is off; nothing else changes |
| ProxyControl.RemoveTargetedFrame | src/proxy/proxy.control.spec.ts:80-92 | the frame is gone, every other frame is present iff it was before, and nothing else changes |
| ProxyControl.TargetAllFrames | src/proxy/proxy.control.spec.ts:86-96 | afterwards all frames are targeted iff it was asked for and no frame is targeted; only the all-frames request changes |
| ProxyControl.AddAuthorizedChannel | src/proxy/proxy.control.spec.ts:101-103 | the channel is appended after the existing ones, and nothing else changes |
| ProxyControl.RemoveAuthorizedChannel | src/proxy/proxy.control.spec.ts:106-108 | the channel is gone, every other channel is present iff it was before, and nothing else changes |
| ProxyControl.OriginAddRemoveRoundTrip | src/proxy/proxy.control.spec.ts:56-63 | adding a new origin and then removing it restores the policy exactly |
| ProxyControl.FrameAddRemoveRoundTrip | src/proxy/proxy.control.spec.ts:68-92 | adding a new frame and then removing it restores the policy exactly |
| ProxyControl.ChannelAddRemoveRoundTrip | src/proxy/proxy.control.spec.ts:101-108 | adding a new channel and then removing it restores the policy exactly |
| ProxyControl.RemoveKeepsOrder | src/proxy/proxy.control.spec.ts:61-63 | removing an origin listed once leaves the others in their original order |
| ProxyControl.RemoveFrameKeepsOrder | src/proxy/proxy.control.spec.ts:80-83 | removing a frame listed once leaves the others in their original order |
| ProxyControl.RemoveChannelKeepsOrder | src/proxy/proxy.control.spec.ts:106-108 | removing a channel listed once leaves the others in their original order |
| ProxyControl.AllFramesRequestNeedsNoFrames | src/proxy/proxy.control.spec.ts:85-96 | all frames asked for while a frame is targeted: all-frames stays off, stays off after that frame is removed, and comes on only when asked for again |
| ProxyControl.AllFramesRequestSurvivesFrameRoundTrip | src/proxy/proxy.control.spec.ts:67-96 | all frames asked for while no frame is targeted: all-frames is on, goes off when a frame is added, and comes back on when that frame is removed |
| ProxyControl.StartupScenario | src/proxy/proxy.control.spec.ts:25-40 | the start-up test: the control is listening, has the one configured origin, targets no explicit frame and targets all frames |
| ProxyControl.ReconfigurationScenario | src/proxy/proxy.control.spec.ts:42-110 | the reconfiguration test, step by step: every intermediate origin, frame and channel list and every all-frames answer it checks |
| ProxyInbound.Classify | src/proxy/proxy.control.spec.ts:122-225 | each verdict happens iff its condition holds, checked in order: origin not allowed; empty data; not an envelope; channel not authorized; otherwise accepted with the envelope's channel and payload |
| ProxyInbound.LogFor | src/proxy/proxy.control.spec.ts:141-143 | refusals and ignored data log exactly one line tagged `MessageProxy`, at warning level iff the origin was refused; the refusal text is the fixed prefix followed by the origin; empty data logs exactly `Message Ignored, it contains no payload` and non-envelope data exactly `Message Ignored, not intended for the bus.`, both at debug level |
| ProxyInbound.Injected | src/proxy/proxy.control.spec.ts:112-227 | only an accepted message reaches the local bus, as exactly one (channel, payload) send |
| ProxyInbound.HandleInbound | src/proxy/proxy.control.spec.ts:51-53 | a message event is classified iff the proxy is listening |
| ProxyInbound.AcceptedMeansAuthorized | src/proxy/proxy.control.spec.ts:112-227 | something reaches the bus iff the origin is allowed, the data is a non-empty envelope, and its channel is authorized |
| ProxyInbound.RemovedOriginIsRefused | src/proxy/proxy.control.spec.ts:61-63 | after an origin is removed, every message from it is refused |
| ProxyInbound.AddedOriginIsNotRefused | src/proxy/proxy.control.spec.ts:56-58 | after an origin is added, its messages are never refused for their origin |
| ProxyInbound.StoppedProxyIgnoresMessages | src/proxy/proxy.control.spec.ts:51-53 | a stopped proxy ignores every message, and restarting it restores the same classification |
| ProxyInbound.UnregisteredOriginScenario | src/proxy/proxy.control.spec.ts:122-147 | a message from `http://localhost:9876` with only `http://something.else` allowed logs the exact warning `Message refused, origin not registered: http://localhost:9876` tagged `MessageProxy` |
| ProxyInbound.NotForBusScenario | src/proxy/proxy.control.spec.ts:149-199 | a plain string and `{data: 'hi fox!'}` both log the debug line `Message Ignored, not intended for the bus.` |
| ProxyInbound.NoPayloadScenario | src/proxy/proxy.control.spec.ts:201-225 | an empty string logs the debug line `Message Ignored, it contains no payload`, not the not-for-the-bus line |

Two points could be read either way; the model follows the test:

- One could expect removing the last frame after `targetAllFrames(true)` to turn all-frames
  targeting on. The test at src/proxy/proxy.control.spec.ts:89-91 expects it to
  stay off until `targetAllFrames(true)` is called again. So the model drops an all-frames
  request made while a frame is targeted.
- One could expect the envelope shape to be checked before empty data. The test at
  src/proxy/proxy.control.spec.ts:201-225 posts `''`, a plain string, and expects the
  no-payload line. So the model checks for empty (JavaScript-falsy) data first.

## Left out

- The message bus itself (channel registry, RxJS observables, subscription timing) is not
  part of this model. Subscriptions are folds over a log of sends and closes. A stream is
  assumed to complete when its channel is closed.
- `StompParser.genUUID` is not part of this model. The uuid of the aggregate channel is a
  parameter of `NewCache`.
- `populateCache` adopts the caller's `Map` object itself. Later mutation through either
  alias, including a `resetCache` clearing the caller's map, is not modelled, because values
  are immutable here.
- `getName` and the `MessageBusEnabled` interface are reduced to the constant sender name
  `BusCache`.
- `===` on change types is Dafny equality. For objects, JavaScript compares references,
  which is not modelled.
- Numbers are integers, so floating point, `NaN` and `-0` are not modelled. They only matter
  to falsiness.
- JavaScript sorts keys by UTF-16 code units; the model orders Dafny characters. The two
  orders differ only for keys holding characters outside the basic multilingual plane. String
  lengths, and so the index names of a string, are counted in UTF-16 code units. `JSON.stringify` on a list of
  strings is taken to be injective, so comparing the encodings is list equality.
- `Object.keys` of an object lists integer-like keys first in JavaScript. This does not
  matter after sorting, so objects keep their property order.
- The proxy implementation (message.proxy.ts) is not part of this model. The policy and the
  pipeline follow the tests and the proxy's described four-step pipeline. Three points are
  choices:
  - The envelope is an object with the fields `direction`, `correlationId`, `channel` (a
    string), `payload` and `senderId`; `isError` is optional.
  - "No payload" is JavaScript-falsy data.
  - `remove*` deletes every occurrence.
- The log text for an unauthorized channel and for an accepted message is not fixed by any
  test, so no text is modelled for them.
- The accept path and the unauthorized-channel path are not exercised by any test in
  src/proxy/proxy.control.spec.ts. ProxyInbound.Classify's accept branch,
  ProxyInbound.Injected, ProxyInbound.AcceptedMeansAuthorized and the lemma
  ProxyInbound.EnvelopeDeliveredOnceScenario follow the described pipeline, not a test.
- The outbound relay to remote frames, `postMessage` and event-loop timing are not
  modelled. `ProxyType` (parent or child role) is stored but has no behaviour here.
- The logger's styling and silencing switches are not modelled.
- src/proxy/proxy.control.spec.ts:38 checks the method `isTargetingAllFrames` itself rather
  than its result, so it holds trivially. ProxyControl.StartupScenario proves the result the
  test evidently means: all frames are targeted.
- The build, lint, bundle and karma configuration files and the REST, util and UI context
  files are outside the modelled core.

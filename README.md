# qrwc-svelte core, modelled in Dafny

qrwc-svelte wraps the Q-SYS Remote WebSocket Control transport for Svelte
applications. This project models its core:

- the **subscription registry** (`ControlSubscriber`). It holds two indices: per-component buckets of subscriptions, and an id → component table. It also holds a counter that only grows. Its operations are subscribe, unsubscribe, fan-out of pushed updates, initial-value propagation and flush.
- the **connection supervisor** (`ConnectionManager`). It is a disconnected / connecting / connected state machine with an attempt counter, a reconnect switch and the session handle. It picks the primary or redundant core by attempt parity, uses a two-level retry delay, and has a kill switch.
- the **control projections**: the generic accessor `fetchControl` and the button, knob, text, trigger and combo-box wrappers built on it.
- the **pure helpers**: the Direction/Type validators, the component and control listings, and the `Component` constructor checks.

The transport's object graph is a value (`Qrwc.Session`). It maps component ids to handles holding a `controls` map. `control.update(v)` appends `v` to the accessor's command log `sent`, so "nothing is sent" is a statement about that log. Timers and awaits of the supervisor are abstract events: an attempt's session is created, its start completes, it fails or it times out, the transport drops, a retry timer fires, or a kill happens. Each attempt carries a tag.

Each stateful source class is a Dafny class. Its methods are proved against a pure function of its fields (`Model()`):

- `ControlSubscriber` against `Subscribe`, `Unsubscribe` and `Flush`.
- `ConnectionManager` against `AfterConnect`, `AfterDisconnect` and the other `After*` functions.

The registry's cross-index invariant (`Consistent`) and the supervisor's invariant (`Valid`) are proved preserved by every operation and by any sequence of them. The main proved properties are:

- ids are never reused;
- unsubscribe is exact and idempotent;
- each update reaches exactly the matching subscriptions, up to the first updater that throws;
- each initial value is delivered exactly once;
- the kill switch is permanent.

Where the library's documented design and its code differ, the model follows the code:

- A kill only sets a flag. A retry timer already scheduled still fires and dials again (`PendingRetryOutlivesKill`).
- An attempt whose awaits complete after a kill still ends connected, because nothing re-checks the state after the awaits (`LateSuccessAfterKill`).
- A timeout followed by the same attempt's failure counts twice (`TimeoutThenFailureCountsTwice`).
- Retry timers are never cancelled, so several can be pending at once (`pendingRetries`).
- The long retry delay is exactly 15000 ms.
- A session is stored as soon as it is created, in whatever state the supervisor is by then. A session created after its attempt timed out is never closed and stays held while disconnected (`SessionLeaksAfterTimeout`). So the supervisor's invariant only says that a connected supervisor holds a session.
- A completed start attaches its listener to the session held at that moment. When a disconnect has dropped it, the attach throws and the attempt fails (`SuccessResets`).
- Update fan-out has no try/catch: the first updater that throws ends the walk over the event, and the exception escapes to the transport (`ControlSubscriber.ProcessControlEvent`).

## Model

| member | source | states |
|---|---|---|
| ControlDataParser.FindLiteral | src/lib/connection/control-data-parser.svelte.ts:21-22 | the literal lookup finds something iff the string is one of the literals, and then returns that same string |
| ControlDataParser.GetDirectionProperty | src/lib/connection/control-data-parser.svelte.ts:12-28 | undefined for an undefined control; defined iff the control's Direction is one of 'Read/Write', 'Read Only', 'Write Only', and then equal to it |
| ControlDataParser.GetTypeProperty | src/lib/connection/control-data-parser.svelte.ts:38-52 | undefined for an undefined control; defined iff the Type is one of the seven type literals, and then equal to it |
| ControlDataParser.ParsersNeverRewrite | src/lib/connection/control-data-parser.svelte.ts:19-27 | both validators return undefined or the input unchanged; a missing or empty field yields undefined |
| ControlSubscriber.Subscribe | src/lib/connection/control-subscriber.svelte.ts:24-48 | subscribeControl on the registry value: append {count, c, k, u} to bucket c, record count → c, advance the counter (its meaning: SubscribeAppends, SubscribeKeepsConsistent) |
| ControlSubscriber.RemoveId | src/lib/connection/control-subscriber.svelte.ts:69-71 | the `filter` on one bucket; the result is never longer (its meaning: RemoveIdMembers, RemoveIdPreservesOthers) |
| ControlSubscriber.Unsubscribe | src/lib/connection/control-subscriber.svelte.ts:54-79 | unsubscribeControl on the registry value, the repair path included (its meaning: UnsubscribeRemovesExactly, UnsubscribeRepairPath) |
| ControlSubscriber.Flush | src/lib/connection/control-subscriber.svelte.ts:130-133 | flushSubscriptions on the registry value (its meaning: FlushKeepsConsistentAndCounter) |
| ControlSubscriber.EmptyIsConsistent | src/lib/connection/control-subscriber.svelte.ts:8-15 | the empty registry satisfies the cross-index invariant |
| ControlSubscriber.FlushKeepsConsistentAndCounter | src/lib/connection/control-subscriber.svelte.ts:130-133 | flush empties both indices, keeps the counter and keeps the invariant |
| ControlSubscriber.NextIdIsFresh | src/lib/connection/control-subscriber.svelte.ts:138-141 | in a consistent registry the counter value is neither in the table nor in any bucket |
| ControlSubscriber.SubscribeKeepsConsistent | src/lib/connection/control-subscriber.svelte.ts:24-48 | subscribing preserves the invariant (table entries lie below the counter and point at a bucket holding the id, every bucket entry is filed under its bucket, no bucket is empty, ids in a bucket are distinct) |
| ControlSubscriber.SubscribedTableSound | src/lib/connection/control-subscriber.svelte.ts:29-45 | when the counter value is unused, every table entry after a subscribe, the new one included, points at a bucket holding its id |
| ControlSubscriber.SubscribedBucketsFiled | src/lib/connection/control-subscriber.svelte.ts:29-45 | when the counter value is in no bucket, a subscribe leaves no bucket empty, files every entry under its bucket and keeps ids in a bucket distinct |
| ControlSubscriber.SubscribeAppends | src/lib/connection/control-subscriber.svelte.ts:29-45 | bucket c exists and ends with {id, c, k, u}; other buckets are untouched; the table gains id → c for a fresh id; the counter grows by one |
| ControlSubscriber.RemoveAbsentId | src/lib/connection/control-subscriber.svelte.ts:69-71 | filtering out an id that is not in a bucket leaves the bucket as it was |
| ControlSubscriber.RemoveIdMembers | src/lib/connection/control-subscriber.svelte.ts:69-71 | the filter keeps exactly the subscriptions whose id differs |
| ControlSubscriber.RemoveIdAppend | src/lib/connection/control-subscriber.svelte.ts:69-71 | filtering a concatenation is concatenating the filtered parts |
| ControlSubscriber.RemoveIdPreservesOthers | src/lib/connection/control-subscriber.svelte.ts:69-71 | removing the single occurrence at position i yields bucket[..i] + bucket[i+1..], the others in order |
| ControlSubscriber.RemoveIdDropsOne | src/lib/connection/control-subscriber.svelte.ts:69-71 | in a bucket of distinct ids the filter drops exactly position i and the result still has distinct ids |
| ControlSubscriber.UnsubscribeShape | src/lib/connection/control-subscriber.svelte.ts:58-78 | for a live id: the table loses the id, the bucket becomes the filtered bucket or is deleted when that is empty, and other buckets are unchanged |
| ControlSubscriber.UnsubscribeKeepsConsistent | src/lib/connection/control-subscriber.svelte.ts:54-79 | unsubscribing any id preserves the invariant |
| ControlSubscriber.UnsubscribedTableSound | src/lib/connection/control-subscriber.svelte.ts:69-78 | after removing one live id, every remaining table entry still points at a bucket holding it |
| ControlSubscriber.StillHeld | src/lib/connection/control-subscriber.svelte.ts:69-71 | an id at any other position than the removed one is still in the filtered bucket |
| ControlSubscriber.UnsubscribedBucketsFiled | src/lib/connection/control-subscriber.svelte.ts:69-78 | after removing one live id, no bucket is empty, every entry is filed under its bucket and ids stay distinct |
| ControlSubscriber.UnsubscribeUnknownIsNoop | src/lib/connection/control-subscriber.svelte.ts:56 | an id not in the table changes nothing |
| ControlSubscriber.UnsubscribeIdempotent | src/lib/connection/control-subscriber.svelte.ts:54-79 | unsubscribing twice equals unsubscribing once, from any state |
| ControlSubscriber.UnsubscribeRepairPath | src/lib/connection/control-subscriber.svelte.ts:60-66 | an id whose bucket is missing loses only its table entry |
| ControlSubscriber.RepairPathUnreachable | src/lib/connection/control-subscriber.svelte.ts:60-66 | in a consistent registry the repair path is never taken |
| ControlSubscriber.UnsubscribeRemovesExactly | src/lib/connection/control-subscriber.svelte.ts:58-78 | unsubscribing a live id removes exactly that subscription, keeps the others in order, prunes an emptied bucket, deletes the table entry and touches no other bucket |
| ControlSubscriber.SubscribeThenUnsubscribe | src/lib/connection/control-subscriber.svelte.ts:24-79 | unsubscribing the id just returned restores both indices; only the counter has moved |
| ControlSubscriber.FreshSubscribeUndone | src/lib/connection/control-subscriber.svelte.ts:24-79 | the same round trip, stated for any registry whose counter value is not in use |
| ControlSubscriber.IssuedIdsStrictlyIncrease | src/lib/connection/control-subscriber.svelte.ts:138-141 | over any sequence of subscribe, unsubscribe and flush, the issued ids are strictly increasing and lie between the start and final counter, so none is reused, across flushes too |
| ControlSubscriber.RunKeepsConsistent | src/lib/connection/control-subscriber.svelte.ts:24-133 | any sequence of operations from a consistent registry ends consistent |
| ControlSubscriber.Matching | src/lib/connection/control-subscriber.svelte.ts:90-94 | the calls one bucket plans for a pushed control, in bucket order (its meaning: MatchingExactly) |
| ControlSubscriber.EventDeliveries | src/lib/connection/control-subscriber.svelte.ts:86-96 | the calls planned for a whole event, entry by entry (its meaning: EventReachesExactlyMatching) |
| ControlSubscriber.MatchingExactly | src/lib/connection/control-subscriber.svelte.ts:90-94 | a bucket yields a call exactly for each subscription whose control name equals the pushed control's Name, with that control |
| ControlSubscriber.EventDeliveriesByEntry | src/lib/connection/control-subscriber.svelte.ts:87-95 | an event's calls are exactly the union of its entries' calls |
| ControlSubscriber.EventReachesExactlyMatching | src/lib/connection/control-subscriber.svelte.ts:86-96 | a subscription is called iff the event has an entry for its component whose control carries its control name; entries without a bucket call nothing |
| ControlSubscriber.ReachesThrower | src/lib/connection/control-subscriber.svelte.ts:90-94 | some planned call goes to an updater that throws |
| ControlSubscriber.UntilThrow | src/lib/connection/control-subscriber.svelte.ts:86-96 | the calls made when the walk stops after the first throwing call (its meaning: UntilThrowIsPrefix) |
| ControlSubscriber.UntilThrowIsPrefix | src/lib/connection/control-subscriber.svelte.ts:86-96 | the calls made are a prefix of the planned ones: all of them when no updater throws, otherwise ending with the first throwing call, none before it throwing |
| ControlSubscriber.ReachesThrowerAppend | src/lib/connection/control-subscriber.svelte.ts:86-96 | a throwing call occurs in two walks in turn iff it occurs in one of them |
| ControlSubscriber.UntilThrowAppend | src/lib/connection/control-subscriber.svelte.ts:86-96 | a walk over two parts stops in the first when a call there throws, else completes it and goes on with the second |
| ControlSubscriber.StopAt | src/lib/connection/control-subscriber.svelte.ts:86-96 | after a clean prefix, a throw in the next part ends the whole walk there |
| ControlSubscriber.MatchingAppend | src/lib/connection/control-subscriber.svelte.ts:90-94 | the planned calls of a split bucket are those of its parts in turn |
| ControlSubscriber.EventDeliveriesAppend | src/lib/connection/control-subscriber.svelte.ts:86-96 | the planned calls of a split event are those of its parts in turn |
| ControlSubscriber.EventSplit | src/lib/connection/control-subscriber.svelte.ts:86-96 | the planned calls of an event are those of the entries before n, of entry n, and of the entries after it, in that order |
| ControlSubscriber.EventStopsAt | src/lib/connection/control-subscriber.svelte.ts:86-96 | a throw inside entry n, after clean entries, ends the event walk inside entry n |
| ControlSubscriber.EventStepClean | src/lib/connection/control-subscriber.svelte.ts:86-96 | an entry none of whose calls throws adds all its calls and leaves the walk clean |
| ControlSubscriber.InitialDeliveries | src/lib/connection/control-subscriber.svelte.ts:105-125 | the calls propagateInitialValues makes, visiting the buckets in a given order (its meaning: InitialValuesDeliveredOnce, InitialDeliveriesSound) |
| ControlSubscriber.OccurrencesAppend | src/lib/connection/control-subscriber.svelte.ts:107-124 | call counts add up over concatenated walks |
| ControlSubscriber.BucketOccurrences | src/lib/connection/control-subscriber.svelte.ts:110-123 | within one bucket an id is called once if its control exists in the session, else never |
| ControlSubscriber.OtherKeysContributeNothing | src/lib/connection/control-subscriber.svelte.ts:107-124 | buckets other than the one an id is filed under never call it |
| ControlSubscriber.InitialSplit | src/lib/connection/control-subscriber.svelte.ts:107-124 | the walk over the buckets splits at any bucket into the walk before it, that bucket, and the walk after it |
| ControlSubscriber.InitialAppend | src/lib/connection/control-subscriber.svelte.ts:107-124 | walking two key sequences in turn makes the calls of the first walk followed by those of the second |
| ControlSubscriber.SplitAvoids | src/lib/connection/control-subscriber.svelte.ts:107 | a key visited once by the walk appears neither before nor after its own position |
| ControlSubscriber.DeliverableAt | src/lib/connection/control-subscriber.svelte.ts:110-120 | in a bucket of distinct ids, the subscription at a position can be called exactly when its own control exists in the session |
| ControlSubscriber.DeliveredOnceAt | src/lib/connection/control-subscriber.svelte.ts:105-125 | the subscription at position i of the bucket visited at position p is called once by the whole walk if its control exists, else never |
| ControlSubscriber.InitialValuesDeliveredOnce | src/lib/connection/control-subscriber.svelte.ts:105-125 | walking every bucket once calls each subscription exactly once when its control exists, and never when it is absent (the walk goes on) |
| ControlSubscriber.BucketInitialSound | src/lib/connection/control-subscriber.svelte.ts:110-123 | every call made for a bucket is for one of its subscriptions, with its control from the session |
| ControlSubscriber.InitialDeliveriesSound | src/lib/connection/control-subscriber.svelte.ts:105-125 | every initial call is made for a subscription of a visited bucket with its control from the session |
| ControlSubscriber.ControlSubscriber.constructor | src/lib/connection/control-subscriber.svelte.ts:8-15 | starts empty with counter 0, satisfying the invariant |
| ControlSubscriber.ControlSubscriber.GetNewSubscriptionId | src/lib/connection/control-subscriber.svelte.ts:138-141 | returns the counter and advances it by one |
| ControlSubscriber.ControlSubscriber.SubscribeControl | src/lib/connection/control-subscriber.svelte.ts:24-48 | the new state is Subscribe of the old; the returned id is the old counter, fresh in a valid registry; validity is kept |
| ControlSubscriber.ControlSubscriber.UnsubscribeControl | src/lib/connection/control-subscriber.svelte.ts:54-79 | the new state is Unsubscribe of the old; the id is gone from the table; the counter is unchanged; validity is kept |
| ControlSubscriber.ControlSubscriber.ProcessControlEvent | src/lib/connection/control-subscriber.svelte.ts:86-96 | reads only; given the subscriptions whose updater throws, the calls made are UntilThrow of the planned EventDeliveries, and the exception escapes iff a planned call throws |
| ControlSubscriber.ControlSubscriber.MatchBucket | src/lib/connection/control-subscriber.svelte.ts:90-94 | the calls for one pushed control are UntilThrow of Matching of the bucket, and the walk throws iff a matching updater throws |
| ControlSubscriber.ControlSubscriber.PropagateInitialValues | src/lib/connection/control-subscriber.svelte.ts:105-125 | nothing without a session; otherwise every bucket is visited once and the calls are InitialDeliveries in the visiting order (see InitialValuesDeliveredOnce) |
| ControlSubscriber.ControlSubscriber.DeliverBucket | src/lib/connection/control-subscriber.svelte.ts:110-123 | the calls for one bucket are BucketInitial: one per subscription whose control is found, in bucket order, a missing control being skipped |
| ControlSubscriber.ControlSubscriber.FlushSubscriptions | src/lib/connection/control-subscriber.svelte.ts:130-133 | both indices emptied, the counter kept, validity holds |
| ConnectionManager.PrimaryHostWhenOddOrEarly | src/lib/connection/connection-manager.svelte.ts:66-71 | attempts 0, 1 and every odd count dial the primary core |
| ConnectionManager.PrimaryHostWithoutRedundant | src/lib/connection/connection-manager.svelte.ts:68 | without a (non-empty) redundant address the primary is always dialled |
| ConnectionManager.HostsAlternate | src/lib/connection/connection-manager.svelte.ts:66-71 | with a redundant core, attempts from 2 on alternate redundant (even) and primary (odd) |
| ConnectionManager.RetryDelayTwoLevels | src/lib/connection/connection-manager.svelte.ts:110-112 | the delay is 1000 or 15000 ms, 15000 iff attempts > 5, and never shrinks as attempts grow |
| ConnectionManager.TargetHost | src/lib/connection/connection-manager.svelte.ts:66-71 | the host an attempt dials (its meaning: PrimaryHostWhenOddOrEarly, PrimaryHostWithoutRedundant, HostsAlternate) |
| ConnectionManager.RetryDelay | src/lib/connection/connection-manager.svelte.ts:110-112 | the delay of a scheduled retry (its meaning: RetryDelayTwoLevels) |
| ConnectionManager.StartOptionsFor | src/lib/connection/connection-manager.svelte.ts:137-158 | the options handed to start (its meaning: StartOptionsMeaning) |
| ConnectionManager.StartOptionsMeaning | src/lib/connection/connection-manager.svelte.ts:137-158 | polling interval is poleInterval ?? 35 (a given 0 is kept); a filter is passed iff one is configured; a list filter accepts a component iff its ID is listed; a function filter is passed as is |
| ConnectionManager.AfterConnect | src/lib/connection/connection-manager.svelte.ts:51-71 | connectToQrwc on the supervisor value (its meaning: ConnectGuard) |
| ConnectionManager.AfterDisconnect | src/lib/connection/connection-manager.svelte.ts:93-113 | handleDisconnect on the supervisor value (its meaning: DisconnectHandling) |
| ConnectionManager.AfterKill | src/lib/connection/connection-manager.svelte.ts:45-48 | killConnection on the supervisor value (its meaning: KillSchedulesNothing, KillIsPermanent) |
| ConnectionManager.AfterCreated | src/lib/connection/connection-manager.svelte.ts:73 | the session of attempt t is created and stored (its meaning: CreatedStores) |
| ConnectionManager.AfterSuccess | src/lib/connection/connection-manager.svelte.ts:74-82 | attempt t's start completed (its meaning: SuccessResets) |
| ConnectionManager.AfterFailure | src/lib/connection/connection-manager.svelte.ts:85-90 | attempt t threw (its meaning: FailureAndTimeoutCountOnce) |
| ConnectionManager.AfterTimeout | src/lib/connection/connection-manager.svelte.ts:57-61 | attempt t's 30 s timer fired (its meaning: FailureAndTimeoutCountOnce) |
| ConnectionManager.AfterRetry | src/lib/connection/connection-manager.svelte.ts:110-112 | a scheduled retry fired and calls connectToQrwc (its meaning: FailThenRetry, PendingRetryOutlivesKill) |
| ConnectionManager.Valid | src/lib/connection/connection-manager.svelte.ts:17-24 | the supervisor's invariant: connected implies a session is held, connecting implies an attempt in flight, created and armed attempts are in flight, tags were issued by dials |
| ConnectionManager.InitialIsValid | src/lib/connection/connection-manager.svelte.ts:17-24 | the initial fields satisfy the supervisor invariant |
| ConnectionManager.ConnectGuard | src/lib/connection/connection-manager.svelte.ts:51-71 | connectToQrwc does nothing unless disconnected; otherwise it moves to connecting, keeps the counter, arms one new attempt and dials the host the counter selects; it keeps the invariant |
| ConnectionManager.DisconnectHandling | src/lib/connection/connection-manager.svelte.ts:93-113 | a no-op when disconnected (a session held then stays); otherwise ends disconnected without a session, closes the held session, and schedules exactly one retry with RetryDelay(attempts) iff reconnecting is allowed; idempotent; keeps the invariant |
| ConnectionManager.KillSchedulesNothing | src/lib/connection/connection-manager.svelte.ts:45-48 | a kill ends disconnected with reconnecting off and schedules no retry; from a non-disconnected state it drops the session |
| ConnectionManager.CreatedStores | src/lib/connection/connection-manager.svelte.ts:73 | a created session becomes the current one whatever the state, which is unchanged; nothing is closed |
| ConnectionManager.SuccessResets | src/lib/connection/connection-manager.svelte.ts:74-89 | a completed start with a session held clears its timeout, resets the counter to 0 and connects with the session held at that moment; with none held it is the attempt's failure |
| ConnectionManager.FailureAndTimeoutCountOnce | src/lib/connection/connection-manager.svelte.ts:57-89 | a failure and a fired timeout each add exactly one to the counter and leave the supervisor disconnected; a failure's retry uses the bumped counter |
| ConnectionManager.StepKeepsValid | src/lib/connection/connection-manager.svelte.ts:45-113 | every event keeps the invariant: connected implies a session is held, connecting implies an attempt in flight, created and armed attempts are in flight |
| ConnectionManager.RunKeepsValid | src/lib/connection/connection-manager.svelte.ts:45-113 | any sequence of events keeps the invariant |
| ConnectionManager.RunAppend | src/lib/connection/connection-manager.svelte.ts:45-113 | running two event sequences in turn equals running their concatenation |
| ConnectionManager.KillIsPermanent | src/lib/connection/connection-manager.svelte.ts:45-48 | once reconnecting is off, no sequence of events turns it on or schedules another retry |
| ConnectionManager.KilledAndQuietStaysPut | src/lib/connection/connection-manager.svelte.ts:93-113 | after a kill with no retry pending and no attempt outstanding, no event changes anything |
| ConnectionManager.LateSuccessAfterKill | src/lib/connection/connection-manager.svelte.ts:73-82 | an attempt whose session is created and whose start completes after a kill still ends connected, with that session, reconnecting off |
| ConnectionManager.SessionLeaksAfterTimeout | src/lib/connection/connection-manager.svelte.ts:57-94 | a timeout, then the attempt's session is created, then the attempt fails: the supervisor ends disconnected still holding that session, which was never closed |
| ConnectionManager.TimeoutThenFailureCountsTwice | src/lib/connection/connection-manager.svelte.ts:57-89 | a timeout then the same attempt's failure leave the counter at 2 |
| ConnectionManager.PendingRetryOutlivesKill | src/lib/connection/connection-manager.svelte.ts:107-112 | a retry scheduled before a kill still fires and dials again |
| ConnectionManager.FailThenRetry | src/lib/connection/connection-manager.svelte.ts:66-112 | a throwing attempt followed by its retry raises the counter by one, records the delay for the raised count, dials the next host under a fresh tag and is connecting again |
| ConnectionManager.ThreeFailedAttempts | src/lib/connection/connection-manager.svelte.ts:66-112 | with a redundant core, attempts 0, 1, 2 dial primary, primary, redundant, each retry after 1000 ms |
| ConnectionManager.ConnectionManager.constructor | src/lib/connection/connection-manager.svelte.ts:35-40 | starts disconnected and makes the first attempt at once |
| ConnectionManager.ConnectionManager.ConnectToQrwc | src/lib/connection/connection-manager.svelte.ts:51-71 | the new state is AfterConnect of the old (see ConnectGuard) |
| ConnectionManager.ConnectionManager.HandleDisconnect | src/lib/connection/connection-manager.svelte.ts:93-113 | the new state is AfterDisconnect of the old (see DisconnectHandling) |
| ConnectionManager.ConnectionManager.KillConnection | src/lib/connection/connection-manager.svelte.ts:45-48 | the new state is AfterKill of the old (see KillSchedulesNothing) |
| ConnectionManager.ConnectionManager.SessionCreated | src/lib/connection/connection-manager.svelte.ts:73 | the new state is AfterCreated of the old (see CreatedStores) |
| ConnectionManager.ConnectionManager.ConnectSucceeded | src/lib/connection/connection-manager.svelte.ts:74-89 | the new state is AfterSuccess of the old (see SuccessResets) |
| ConnectionManager.ConnectionManager.ConnectFailed | src/lib/connection/connection-manager.svelte.ts:85-90 | the new state is AfterFailure of the old |
| ConnectionManager.ConnectionManager.ConnectTimedOut | src/lib/connection/connection-manager.svelte.ts:57-61 | the new state is AfterTimeout of the old |
| ConnectionManager.ConnectionManager.TransportDisconnected | src/lib/connection/connection-manager.svelte.ts:75-78 | the transport's disconnect runs the disconnect handler |
| ConnectionManager.ConnectionManager.RetryFired | src/lib/connection/connection-manager.svelte.ts:110-112 | a fired retry consumes one pending timer and calls connectToQrwc |
| BaseControl.UpdateCommand | src/lib/controls/base-control.svelte.ts:76-87 | a write sends at most one command, the value itself, iff the control has a state and the value is defined; undefined is never sent |
| BaseControl.GenericControl.Fetch | src/lib/controls/base-control.svelte.ts:46-53 | fails exactly for a control without a state (the TypeError of reading `control.state.Value`); otherwise a fresh accessor with name, Direction and Type from the validators, the state's value, position and string, nothing sent |
| BaseControl.GenericControl.constructor | src/lib/controls/base-control.svelte.ts:46-53 | the non-throwing path of Fetch: name from the control, Direction and Type from the validators, local value/position/string from the state, nothing sent |
| BaseControl.GenericControl.OnUpdate | src/lib/controls/base-control.svelte.ts:57-68 | all three local fields take the pushed state; the callback runs if given; its exception is only logged |
| BaseControl.GenericControl.SetValue | src/lib/controls/base-control.svelte.ts:76-87 | appends UpdateCommand(state present, value) to the log and changes nothing else; the direction is not checked |
| BaseControl.GenericControl.SetPosition | src/lib/controls/base-control.svelte.ts:89-104 | sends nothing |
| BaseControl.GenericControl.SetString | src/lib/controls/base-control.svelte.ts:106-117 | sends the string iff the control has a state and a string is given, and changes nothing else |
| BaseControl.GenericControl.StringOrEmpty | src/lib/controls/text.svelte.ts:30 | `ctl.string ?? ""`: the local string, or "" when there is none; shared by the text, knob and combo-box projections |
| Button.ButtonState | src/lib/controls/button.svelte.ts:42 | the state the button reports: the truthiness of the value (its meaning: StateRoundTrip, StateAgainstThreshold) |
| Button.StateWrite | src/lib/controls/button.svelte.ts:40 | setting the state writes 1 or 0 |
| Button.ToggleWrite | src/lib/controls/button.svelte.ts:31-32 | a toggle writes 1 or 0 |
| Button.StateRoundTrip | src/lib/controls/button.svelte.ts:40-42 | writing state b and reading the state back gives b |
| Button.ToggleInverts | src/lib/controls/button.svelte.ts:31-42 | a toggle writes the state opposite to the truthiness of the position |
| Button.StateAgainstThreshold | src/lib/controls/button.svelte.ts:42 | the parsed `?? 0 > 0.5` agrees with a 0.5 threshold on 0, 1, booleans and undefined, but 0.25 reads as pressed |
| Button.ButtonControl.Fetch | src/lib/controls/button.svelte.ts:20-23 | fails exactly where fetchControl throws; otherwise a fresh button over a fresh accessor whose value, position and string are the state's, nothing sent, a non-Boolean type only flagged |
| Button.ButtonControl.constructor | src/lib/controls/button.svelte.ts:20-23 | wraps the accessor fetchControl returned; a non-Boolean type is only flagged |
| Button.ButtonControl.State | src/lib/controls/button.svelte.ts:42 | the state getter, ButtonState of the local value |
| Button.ButtonControl.Set | src/lib/controls/button.svelte.ts:34-41 | read-only: nothing sent; otherwise StateWrite(b) is sent |
| Button.ButtonControl.Toggle | src/lib/controls/button.svelte.ts:25-33 | read-only: nothing sent; otherwise 0 when the position is truthy, else 1 |
| Knob.ValueOrZero | src/lib/controls/knob.svelte.ts:46 | an undefined value reads as 0; a defined value is kept |
| Knob.KnobDefaults | src/lib/controls/knob.svelte.ts:46-113 | value ?? 0 (undefined reads 0), position ?? 0, string ?? ''; the range metadata comes from the raw state and is undefined where absent |
| Knob.KnobControl.Fetch | src/lib/controls/knob.svelte.ts:29-34 | fails exactly where fetchControl throws; otherwise a fresh knob over a fresh accessor whose value, position and string are the state's, nothing sent, a non-numeric type only flagged |
| Knob.KnobControl.constructor | src/lib/controls/knob.svelte.ts:29-34 | wraps the accessor fetchControl returned; a type outside Float/Integer/Time/Array is only flagged |
| Knob.KnobControl.Value | src/lib/controls/knob.svelte.ts:46 | the value getter (its meaning: KnobDefaults) |
| Knob.KnobControl.Position | src/lib/controls/knob.svelte.ts:57 | the position getter (its meaning: KnobDefaults) |
| Knob.KnobControl.String | src/lib/controls/knob.svelte.ts:69 | the string getter (its meaning: KnobDefaults) |
| Knob.KnobControl.ValueMin | src/lib/controls/knob.svelte.ts:90-92 | the raw state's ValueMin (its meaning: KnobDefaults) |
| Knob.KnobControl.ValueMax | src/lib/controls/knob.svelte.ts:93-95 | the raw state's ValueMax (its meaning: KnobDefaults) |
| Knob.KnobControl.StringMin | src/lib/controls/knob.svelte.ts:108-110 | the raw state's StringMin (its meaning: KnobDefaults) |
| Knob.KnobControl.StringMax | src/lib/controls/knob.svelte.ts:111-113 | the raw state's StringMax (its meaning: KnobDefaults) |
| Knob.KnobControl.SetValue | src/lib/controls/knob.svelte.ts:37-44 | read-only: nothing sent; otherwise the number is sent |
| Knob.KnobControl.SetPosition | src/lib/controls/knob.svelte.ts:49-56 | never sends anything |
| Knob.KnobControl.SetString | src/lib/controls/knob.svelte.ts:60-67 | read-only: nothing sent; otherwise the string is sent |
| Text.TextControl.Fetch | src/lib/controls/text.svelte.ts:17-19 | fails exactly where fetchControl throws; otherwise a fresh text control over a fresh accessor, nothing sent, a non-Text type only flagged |
| Text.TextControl.constructor | src/lib/controls/text.svelte.ts:17-19 | wraps the accessor fetchControl returned; a non-Text type is only flagged |
| Text.TextControl.String | src/lib/controls/text.svelte.ts:30 | the string getter, StringOrEmpty of the accessor |
| Text.TextControl.SetText | src/lib/controls/text.svelte.ts:21-28 | read-only: nothing sent; otherwise the string is sent |
| Trigger.TriggerControl.Fetch | src/lib/controls/trigger.svelte.ts:17-19 | fails exactly where fetchControl throws; otherwise a fresh trigger over a fresh accessor, nothing sent, a non-Trigger type only flagged |
| Trigger.TriggerControl.constructor | src/lib/controls/trigger.svelte.ts:17-19 | wraps the accessor fetchControl returned; a non-Trigger type is only flagged |
| Trigger.TriggerControl.Fire | src/lib/controls/trigger.svelte.ts:21-28 | read-only: nothing sent; any other direction, undefined included, sends 1 |
| ComboBox.IndexOf | src/lib/controls/combo-box.svelte.ts:55 | -1 iff the string is not a choice; otherwise the first position holding it |
| ComboBox.OptionText | src/lib/controls/combo-box.svelte.ts:44-52 | an index in range selects that choice; an index out of range gives "" |
| ComboBox.OptionRoundTrip | src/lib/controls/combo-box.svelte.ts:44-55 | with distinct choices, writing option i and reading the option back gives i |
| ComboBox.IndexRoundTrip | src/lib/controls/combo-box.svelte.ts:44-55 | writing the option of a listed string sends that string |
| ComboBox.OptionMeaning | src/lib/controls/combo-box.svelte.ts:54-55 | the option is -1 iff the current string (or "") is not a choice, else its position |
| ComboBox.TextComboBoxControl.Fetch | src/lib/controls/combo-box.svelte.ts:22-29 | fails exactly where fetchControl throws; otherwise fresh, with choices the state's Choices ?? [], nothing sent, a non-Text type only flagged |
| ComboBox.TextComboBoxControl.constructor | src/lib/controls/combo-box.svelte.ts:22-29 | wraps the accessor fetchControl returned with the initial choices; a non-Text type is only flagged |
| ComboBox.TextComboBoxControl.OnUpdate | src/lib/controls/combo-box.svelte.ts:23-25 | an update overwrites the local fields and replaces the choices wholesale by the pushed Choices ?? [] |
| ComboBox.TextComboBoxControl.String | src/lib/controls/combo-box.svelte.ts:54 | the string getter, StringOrEmpty of the accessor |
| ComboBox.TextComboBoxControl.Option | src/lib/controls/combo-box.svelte.ts:55 | the option getter, IndexOf the current string among the choices (its meaning: OptionMeaning) |
| ComboBox.TextComboBoxControl.SetText | src/lib/controls/combo-box.svelte.ts:35-42 | read-only: nothing sent; otherwise the string is sent |
| ComboBox.TextComboBoxControl.SetOption | src/lib/controls/combo-box.svelte.ts:44-52 | sends OptionText(choices, i) through the same read-only guard, so an out-of-range index writes "" |
| GlobalMetadata.GetQrwcComponentList | src/lib/controls/global-metadata.svelte.ts:4-11 | empty without a session, otherwise exactly the component ids |
| GlobalMetadata.GetQrwcControlList | src/lib/controls/global-metadata.svelte.ts:13-25 | empty without a session or for an unknown component, otherwise exactly its control names |
| GlobalMetadata.ControlsOnlyOfListedComponents | src/lib/controls/global-metadata.svelte.ts:4-25 | only a listed component can have listed controls |
| Components.NewComponent | src/lib/components/component.ts:37-52 | no session → instance-not-found, checked first; unknown id → component-not-found; otherwise bound to components[id] |
| Components.Component.Name | src/lib/components/component.ts:59-61 | the bound component's name (its meaning: ConstructionAgreesWithListings) |
| Components.Component.Id | src/lib/components/component.ts:68-70 | the bound component's state ID (its meaning: ConstructionAgreesWithListings) |
| Components.Component.Type | src/lib/components/component.ts:77-79 | the bound component's state Type (its meaning: ConstructionAgreesWithListings) |
| Components.Component.GetControlList | src/lib/components/component.ts:87 | the keys of the bound component's controls map |
| Components.ConstructionAgreesWithListings | src/lib/components/component.ts:37-87 | construction succeeds iff the id is listed; Name, Id, Type are the bound component's name, ID and Type; getControlList, which reads the `controls` map, equals the control listing for that id as the model reads it (the listing's own code reads the component object, see Left out) |
| QrwcSvelte.QrwcSvelte.constructor | src/lib/qrwc-svelte.svelte.ts:42-51 | a supervisor that has started its first attempt, and an empty registry |
| QrwcSvelte.QrwcSvelte.Disconnect | src/lib/qrwc-svelte.svelte.ts:187-190 | kill then flush: the supervisor state is AfterKill of the old, the registry is flushed with its counter kept |

## Left out

- src/lib/connection/qrwc-factory.ts: opening the WebSocket, the `window` global and its 20 s timer are browser I/O. A session is an input of the creation event.
- Real time. Timers and awaits are events that may happen in any order. The 30 s connect timeout and the 10 s start timeout are not measured. A start that times out or throws (including a throwing user filter) is the failure event.
- The `onInitialValues`/`onComponentUpdate` callbacks wired in startAndSubscribe: the registry's propagation and fan-out are modelled on their own, not as steps of the success event.
- Console logging. Only the type-mismatch flag of each projection and the listener's error flag are kept.
- Key order of `Object.keys` and `for..in`. Listings are sets. Propagation visits buckets in an order the method chooses and reports. Fan-out takes the event as a sequence of entries.
- Updater exceptions are an input: an updater is a token and a call is a `Delivery`. During propagation a throwing updater is logged and the walk continues, which the model does as well; during fan-out the set of throwing subscriptions is a parameter of ProcessControlEvent.
- Exceptions from `control.update` inside the setters: the transport is not modelled.
- The registry's control lookup and `getQrwcControlList` index the component object directly (`components[c][control]`, `Object.keys(components[id])`), as an older transport did. The model reads the component's `controls` map.
- The `use*` methods of `Component` and the `fetch*`/`use*` wiring of the facade are not modelled. The facade passes arguments that no longer match the projections.
- Svelte runes: `$state` fields are class fields, `$derived` values are functions, and the `$effect` listener registration and teardown is the `OnUpdate` method.
- Numbers are reals: NaN and infinities are not modelled. Truthiness of a number is "nonzero".
- ComboBox.TextComboBoxControl.SetOption takes an integer index. A fractional index, which reads `undefined` from the choices and sends nothing, is not modelled.
- Knob.KnobControl.Value keeps any defined value, strings and booleans included, because the `as number` cast checks nothing at run time.
- BaseControl.GenericControl.constructor and the constructors of the button, knob, text, trigger and combo-box projections take an accessor that fetchControl returned. The state-less control, on which fetchControl throws a TypeError, is handled by each class's `Fetch`, which returns None then.
- Which listener the transport calls for a session: a disconnect of a session that a later attempt has replaced is still the transport-drop event of the supervisor.

# Verification of argocd-notifier

argocd-notifier turns a concurrent stream of ArgoCD events into one message per
rollout and destination, edited in place. This project models that pipeline in
Dafny and proves what it promises. `dafny verify dfyconfig.toml` verifies all of it.

The model follows the program from the front to Slack:

- `Receiver`: the event's own validation and the bounded queue.
- `EngineModel`, `DebounceEngine`, `Flush`: the debounce engine. `DebounceEngine` has
  the engine's objects, updated in place; each method is tied to a step of
  `EngineModel`, where the timers ever created are kept as values, so that a callback
  that expired before it was stopped still runs. `Flush` splits a batch by session.
- `Pipeline`: queue, workers, engine, overlapping flushes and sessions together, every
  interleaving, every order Go's maps may range in. `Debounce` is the other reading of
  the engine: urgent timers, no race between a stop and a callback, exact times.
  `Timing` puts `Debounce` in front of the sessions. `Race` and `RacingCalls` have both,
  times and races: timers expire at their deadline or later, and expired callbacks wait
  for the lock as long as they like.
- `Routing`, `Content`, `SessionModel`, `SessionPublishing`: the session publisher,
  again as objects tied to steps on values; two sessions are the same object exactly
  when their `id` is the same. `SessionHistory`, `Replay` and `Fanout` say what a
  session holds, what a repeated batch does, and who is sent what.
- `Protocol`: any number of `Upsert` calls in progress, step by step. `SlackClient`,
  `Registry`, `SlackBackend`: the far side of a delivery, retries included. `OneMessage`
  composes both, `Latest` says what the message shows, and `Schedule` connects it to the
  times of the engine's flushes.
- `Build`, `Wire`, `Render`, `Message`: the notification from the stored events to the
  attachments of the Slack message.
- `Configuration`: validation, and what the timing results get from it.

Calls to the outside are answers the surroundings choose: each backend, each HTTP
exchange and each Slack call may succeed or fail in every way the code distinguishes,
and times are given.

## What the code does not promise

These are properties of the code as it is; each has its exact condition in the table.

- Two overlapping `Upsert` calls of one session object can both post, because each takes
  its snapshot before the other commits. The exact condition, per destination, is that
  both snapshots lack its ref while one call has yet to deliver there and the other has
  too or holds an uncommitted ref (`OneMessage.TwoPostsIff`). Flushes of one group may
  overlap, since the engine flushes after releasing its lock; calls that are done sooner
  than the shorter of IdleWindow and MaxWait after their flush do not
  (`Schedule.PromptIsSerial`).
- Slack may hold a second message that no later call edits, even when no calls overlap.
  An attempt leaves one exactly when the notification is built, rendered and sent without
  a ref, Slack stores it, and either the attempt is not answered OK or the backend's reply
  is lost (`OneMessage.StoresIff`, `OneMessage.MoreThanOneMessageIff`). No retry is needed:
  an error answer to a stored message is enough (`OneMessage.CalmRunLeavesTwo`).
- A delivery that failed is not repeated when its events come again: within the TTL, a
  batch whose content the session holds delivers nothing (`Latest.RepeatDeliversNothing`).
- A batch can be flushed before its idle window has passed: an expired idle callback that
  an event overtakes still takes the batch (`Race.FlushedEarly`), and only such a one does
  (`Race.EarlyOnlyIfOvertaken`).
- `DUPLICATE_ACTION` is validated without regard to capitals
  (internal/config/config.go:107-111) but compared exactly
  (internal/aggregator/session.go:195): "Thread" is accepted and behaves as "drop"
  (`Configuration.AcceptedActionIsHonouredIff`).
- Durations are compared with each other, not with zero: a configuration with a negative
  session TTL is accepted (`Configuration.NegativeTTLPasses`), and exactly then no call
  ever finds an earlier session (`Configuration.AlwaysReplacesIff`).
- The Slack backend accepts a negative retry count (internal/slackbackend/config.go:64-72).
  A post then reports success without a request and returns the ref "|"
  (`SlackClient.Post`).
- Two events of different content hash equal when a "|" sits in a hashed field
  (`Content.KeyIsUniqueIff`), and a ref loses its channel when that holds a "|"
  (`SlackClient.RefRoundTripIff`).

## Model

| member | source | states |
|---|---|---|
| Receiver.Validate | internal/event/event.go:42-63 | one error for exactly each missing field; none iff the event is complete |
| Receiver.Handler.ServeHTTP | internal/receiver/handler.go:27-53 | never blocks; 202 iff the event is complete and there is room (or a waiting worker takes it), 503 iff complete and full, and the queue changes only with a 202, by that event |
| Receiver.Handler.Receive | internal/receiver/handler.go:65-69 | a worker that receives gets the oldest event and the queue loses just that one |
| DebounceEngine.Clock.AfterFunc | internal/aggregator/clock.go:21-23 | a new armed timer, due at now + d for a delay that is not negative and at once otherwise |
| DebounceEngine.Clock.Stop | internal/aggregator/clock.go:29-31 | disarms only a timer that has not expired; true iff it did |
| DebounceEngine.GroupState.AddEvent | internal/aggregator/engine.go:71-86 | the group and the clock end up as one step of the model: event appended, hard timer only for a fresh batch, idle timer replaced |
| DebounceEngine.GroupState.CloseBatch | internal/aggregator/engine.go:98-110 | batch emptied, both timers stopped and cleared, generation advanced |
| DebounceEngine.Engine.Ingest | internal/aggregator/engine.go:64-87 | the whole engine ends up as one step of the model and keeps its invariant |
| DebounceEngine.Engine.OnTimerFire | internal/aggregator/engine.go:89-113 | takes the batch iff the group exists, the generation is current and the batch is non-empty, and publishes a split of exactly that batch |
| DebounceEngine.Engine.RunCallback | internal/aggregator/engine.go:89-113 | a late or superseded callback keeps the engine's invariant |
| EngineModel.IngestKeepsInv | internal/aggregator/engine.go:37-48 | from any engine satisfying the invariant, an event leads to one: buckets non-empty iff both timer fields are set, to two callbacks of the current generation still to run |
| EngineModel.CallbackKeepsInv | internal/aggregator/engine.go:89-113 | any waiting callback keeps the invariant, and takes a batch iff its generation is current |
| EngineModel.IngestAddsEvent | internal/aggregator/engine.go:64-87 | the events in all buckets grow by exactly the ingested one |
| EngineModel.CallbackMovesBatch | internal/aggregator/engine.go:89-113 | the events that leave the buckets are exactly those of the snapshot |
| Flush.FlushBatch | internal/aggregator/engine.go:115-133 | for every map order: distinct keys, every event under its own key, each trigger's events in bucket order, nothing without a call |
| Flush.SplitConserves | internal/aggregator/engine.go:115-133 | the calls together are a permutation of the batch |
| Flush.SplitKeepsOrder | internal/aggregator/engine.go:115-127 | with CombineTriggers off a call holds its events in full arrival order |
| Flush.SplitMatches | internal/aggregator/engine.go:115-127 | every event of a call shares the key's group and revision, and its trigger when triggers are kept apart |
| Pipeline.Conservation | internal/receiver/handler.go:42-74 | in every reachable state each accepted event is in exactly one place, counted with multiplicity: queue, a worker's hand, a bucket, a pending batch, a call to make or a call made |
| Pipeline.NoStrandedBatch | internal/aggregator/engine.go:72-108 | in every reachable state a group has events iff both its timers are set, both will still run for the current generation, and a waiting callback takes a batch iff its generation is current |
| Pipeline.EachGenerationOnce | internal/aggregator/engine.go:92-110 | the batches taken from a group carry the generations 0, 1, 2, ... in order: none twice, none skipped |
| Pipeline.SessionsAreKeyed | internal/aggregator/session.go:102-109 | in every reachable state each stored event sits under its own app name and shares the key's group and revision (and trigger when splitting) |
| Debounce.PartitionUnique | internal/aggregator/engine.go:72-84 | a timed arrival sequence has at most one partition in which each batch closes at min(first + MaxWait, last + IdleWindow) and the next starts with the first arrival at or after that |
| Debounce.DebounceIsExact | internal/aggregator/engine.go:72-108 | in every urgent, race-free run the flushed batches with the open one are that partition and no other, each flushed at min(first + MaxWait, last + IdleWindow) exactly, with the events of each trigger in order of arrival |
| Debounce.BucketsInOrder | internal/aggregator/engine.go:72-73 | a bucket holds the events of its trigger in order of arrival, and every trigger that arrived has one |
| Debounce.FlushedWithinMaxWait | internal/aggregator/engine.go:78-80 | every arrival older than MaxWait has been flushed; whenever it was, it was in one flush only, within MaxWait |
| Race.FlushesAreApart | internal/aggregator/engine.go:72-110 | with times and every race, two flushes of a group are at least min(IdleWindow, MaxWait) apart |
| Race.EarlyOnlyIfOvertaken | internal/aggregator/engine.go:72-108 | with times and every race, a batch is taken before min(first + MaxWait, last + IdleWindow) only by a callback in neither timer field, and only if one of its events came after the batch so far should have closed |
| Race.FlushedEarly | internal/aggregator/engine.go:81-95 | for any delays with 0 < IdleWindow < MaxWait, a run whose flush comes early |
| Debounce.NeverBlocked | internal/aggregator/engine.go:72-84 | the urgent rules never deadlock: an event may arrive, or a timer is due |
| Timing.ReachesTheSameSession | internal/aggregator/session.go:92-115 | every event older than MaxWait and the delivery lag has reached its session, in one call, in time; one that arrived within SessionTTL - MaxWait - lag of the session's last use got that same session object |
| RacingCalls.CallsOfAKeyAreApart | internal/aggregator/engine.go:115-133 | with times and every race, two calls of one key come from flushes at least min(IdleWindow, MaxWait) apart, and none is made before its flush |
| RacingCalls.UrgentRunsRace | internal/aggregator/engine.go:64-133 | every run of the urgent engine is, state for state, a run of the racing one |
| Configuration.ValidatedWindow | internal/config/config.go:96-101 | for a validated configuration that window, before the lag, is open iff SessionTTL is positive, and flushes of a group are at least IdleWindow apart; every event whose time has passed is in exactly one call, and one within the window keeps its session |
| Configuration.AlwaysReplacesIff | internal/config/config.go:96-101 | for every valid configuration: all later uses of a session replace it, whenever they come, iff the session TTL is negative |
| Configuration.NegativeTTLPasses | internal/config/config.go:96-101 | a valid configuration may have a negative session TTL |
| Configuration.Config.Validate | internal/config/config.go:94-139 | lists exactly the problems the settings have, in order; none iff all constraints hold |
| Configuration.Config.ValidIff | internal/config/config.go:94-139 | no problem iff IdleWindow < MaxWait < SessionTTL and the other constraints hold |
| Configuration.LowerLetters | internal/config/config.go:102-111 | lower-casing moves the capital letters and nothing else |
| Configuration.AcceptedActionIsHonouredIff | internal/config/config.go:107-111 | an accepted duplicate action does what its word says iff it has no capital letter or is "drop" |
| Configuration.CapitalThreadIsDropped | internal/aggregator/session.go:195 | "Thread" passes as "thread" but is not equal to it |
| Content.KeyIsInjective | internal/aggregator/session.go:243-246 | for separator-free trigger, revision, phase and health, two events hash equal iff all five fields are equal |
| Content.KeyIsUniqueIff | internal/aggregator/session.go:243-246 | against an arbitrary other event: a hash belongs to one content iff none of the five fields holds a separator |
| Content.Collision | internal/aggregator/session.go:243-246 | for every event with a separator in a hashed field, another content with the same hash |
| Routing.SplitRecipients | internal/aggregator/session.go:248-260 | the loop yields the recipients the specification names |
| Routing.RecipientListed | internal/aggregator/session.go:248-260 | a name comes out iff it is clean and some stretch of the list between semicolons is the name with nothing but white space around it |
| Routing.RecipientsInOrder | internal/aggregator/session.go:248-260 | any list of clean names, with any white space around each, gives these names in this order |
| Text.TrimSpaceIff | internal/aggregator/session.go:255-255 | trimming leaves exactly the one trimmed string that the given one is, with white space around it |
| Routing.RecipientsRoundTrip | internal/aggregator/session.go:248-260 | only trimmed, non-empty, ";"-free names come out, and splitting their ";"-join gives the same list |
| Routing.GroupApps | internal/aggregator/session.go:229-241 | for every map order: one group per named destination, holding exactly the apps whose stored event names the backend and lists the recipient |
| Routing.GroupsAreNeverEmpty | internal/aggregator/session.go:138 | no group is empty, so `Build` never sees an empty map |
| SessionPublishing.SessionState.Merge | internal/aggregator/session.go:100-109 | the loop leaves the apps, the duplicates and the change flag of the specification |
| SessionModel.MergeEffect | internal/aggregator/session.go:100-109 | apps afterwards are those before and those of the batch; each entry is the old one or a batch event of that app; an unchanged batch left all entries alone and is all duplicates |
| SessionModel.MergeKeepsLast | internal/aggregator/session.go:102-109 | an entry agrees on the hashed content with the last event processed for its app |
| SessionModel.MergedExactly | internal/aggregator/session.go:100-109 | for every batch: set aside, in order and as often as they come, are exactly the events whose content is that of the last earlier event of their app, or of the stored entry; each app is left with its last other event, or its stored entry; a change iff not all are set aside |
| SessionModel.RepeatsIff | internal/aggregator/session.go:104 | for separator-free events that is equality of the five hashed fields |
| SessionModel.CommitRenews | internal/aggregator/session.go:186-192 | a commit puts the new refs in place of older ones in the object it started from, and changes nothing else |
| SessionModel.MergeAppend | internal/aggregator/session.go:102-109 | two batches in turn leave the same apps as one batch |
| SessionPublishing.SessionPublisher.Begin | internal/aggregator/session.go:92-116 | the first critical section, on objects, is the step of the model, other sessions untouched |
| SessionPublishing.SessionPublisher.Commit | internal/aggregator/session.go:186-192 | refs go in only if the stored object is the one the snapshot came from |
| SessionPublishing.SessionPublisher.DeliverOne | internal/aggregator/session.go:129-183 | one round, by what the backend can do: call made, ref learnt, error or not |
| SessionPublishing.SessionPublisher.DeliverAll | internal/aggregator/session.go:120-184 | for every map order, each destination gets exactly its own round and nobody else's |
| SessionPublishing.SessionPublisher.SendReplies | internal/aggregator/session.go:195-218 | the replies attempted are those of the specification, in order |
| SessionPublishing.SessionPublisher.Upsert | internal/aggregator/session.go:87-221 | the whole call without interference: empty batch changes nothing; otherwise begin, deliver iff changed, commit, and reply iff configured, to exactly the events of the batch that repeat |
| SessionHistory.SessionIsReplay | internal/aggregator/session.go:92-115 | in every run of interleaved first and second sections, a stored session is the merge, from nothing, of all batches since the last gap over the TTL |
| SessionHistory.SessionHoldsLatest | internal/aggregator/session.go:102-109 | its apps are exactly those seen in the incarnation, each with a processed event that agrees in hashed content with the app's last |
| SessionHistory.StartsAfterAGap | internal/aggregator/session.go:92-98 | an incarnation is a maximal run of uses with gaps at most the TTL |
| SessionHistory.SameIncarnationIff | internal/aggregator/session.go:92-98 | two uses of a key get the same session object iff no gap between them exceeds the TTL |
| Replay.MergedTwice | internal/aggregator/session.go:100-109 | merging a batch again changes nothing iff its events agree per app |
| Replay.ReplayIsUnchangedIff | internal/aggregator/session.go:100-120 | repeating a batch within the TTL, with no other use between, reports no change (so nothing is delivered) iff the batch agrees; then all its events are duplicates |
| Replay.OneReplyPerListing | internal/aggregator/session.go:195-218 | exactly one reply per duplicate and listing of a destination that has a message and a backend that can reply, each under that message |
| Replay.RepliesAreAsked | internal/aggregator/session.go:195-218 | which replies are made and how often each: about the duplicate, at the time of the call, under the known message, once per listing |
| Replay.RepliesInOrder | internal/aggregator/session.go:196-217 | the replies follow the order of the duplicates, and of each one's list |
| Fanout.ExactRouting | internal/aggregator/session.go:128-184 | a destination gets one call iff it is named and its backend usable, with the content built from exactly its apps, of the kind the backend's abilities and the known ref decide |
| Fanout.FailuresAreIsolated | internal/aggregator/session.go:128-184 | calls, ref and error of a destination do not depend on what the others answer |
| Fanout.FailureKeepsRef | internal/aggregator/session.go:149-192 | a failed delivery leaves the known ref as it was |
| Fanout.FailedIff | internal/aggregator/session.go:129-180 | a destination counts as failed iff it is named and its notification cannot be built, its backend is missing or unable, or the one call made fails |
| Fanout.RefIsLearnedIff | internal/aggregator/session.go:149-182 | a destination gets a new ref iff a notifier answered, or a first post to an editable backend succeeded |
| Protocol.RefProvenance | internal/aggregator/session.go:92-218 | under every interleaving, each ref a call carries was returned earlier for the same destination and session object |
| Protocol.RefsOnlyGrow | internal/aggregator/session.go:186-192 | over any stretch of any run, known ref keys are never lost within an incarnation, and a replaced session object never comes back |
| Protocol.LateCommitIsLost | internal/aggregator/session.go:186-192 | a call whose session object was replaced at some moment changes nothing in the store when it commits, however much later |
| Registry.Registry.Register | internal/registry/registry.go:61-89 | names each missing field, otherwise stores the given flag and the given address less one trailing slash, prunes, and tells whether the name was unknown or stale |
| Registry.LookupIsLastRegister | internal/registry/registry.go:61-100 | for every TTL and run: a lookup finds a name iff its last accepted registration is at most the TTL old, and then what that one gave |
| Registry.Registry.PruneLocked | internal/registry/registry.go:110-119 | for every map order, exactly the stale entries other than the one just made are gone |
| Registry.Registry.Lookup | internal/registry/registry.go:91-100 | the entry iff present and not stale |
| Registry.StepAgrees | internal/registry/registry.go:61-119 | one call on the pruned map and on the full log give the same answer and stay in agreement |
| Registry.PruningIsInvisibleIff | internal/registry/registry.go:61-119 | for every run under a clock that does not go back, lookups, isNew and Len after a registration are those of the full history, iff the TTL is not negative |
| SlackClient.RefRoundTripIff | internal/slack/client.go:88-101 | decoding an encoded ref gives channel and ts back iff the channel holds no separator; a ref is never empty |
| SlackClient.DecodedRefReencodes | internal/slack/client.go:88-101 | re-encoding restores every ref that holds a separator |
| SlackClient.BareRef | internal/slack/client.go:92-101 | a ref without the separator is a ts in the channel of the recipient |
| SlackClient.Attempt | internal/slack/client.go:163-187 | succeeds iff the answer is OK; an unbuilt request is not retryable, transport and decoding failures are, a rejection iff 429, 5xx or rate-limited |
| SlackClient.CallEnds | internal/slack/client.go:134-161 | for every retry count: at most r + 1 attempts, ended by the first success, the first failure not worth retrying, a cancelled wait or the last attempt; success only with an OK answer (for r >= 0), none at all when the body does not marshal |
| SlackClient.Call | internal/slack/client.go:134-161 | the loop ends as the specification says, and its waits are bounded |
| SlackClient.BackoffTotal | internal/slack/client.go:193-199 | all waits together: 100 r (r + 1) ms up to r = 10, 11000 + 2000 (r - 10) ms beyond |
| SlackClient.Post | internal/slack/client.go:106-116 | a ref stands for a message the last attempt is known to have stored and encodes where, iff the retry count is not negative |
| SlackClient.Update | internal/slack/client.go:118-126 | addresses what the ref decodes to; succeeds iff the last attempt was answered OK (or none was allowed) |
| SlackClient.PostThreadReply | internal/slack/client.go:128-132 | the same for a reply under the message |
| SlackBackend.HandleNotify | internal/slackbackend/handler.go:31-68 | edits iff given a ref and able to, at the place the ref names, answering with that ref; otherwise posts to the recipient and answers with the new ref |
| SlackBackend.HandleThreadReply | internal/slackbackend/handler.go:75-100 | 204 iff the backend can reply and the reply went through, under the message the ref names |
| SlackBackend.RemoteBackend.Notify | internal/remotebackend/backend.go:39-63 | a request goes only to the address of the live registration; a ref comes back iff the answer is a 200 with a body |
| SlackBackend.RemoteBackend.PostThreadReply | internal/remotebackend/backend.go:65-92 | a request only if the live registration declares support; success iff 204 |
| SlackBackend.CoreHears | internal/remotebackend/backend.go:39-63 | the adapter over the handler's response: whatever the surroundings decide, the core gets exactly what the composition says |
| OneMessage.OneLiveMessage | internal/aggregator/session.go:149-192 | whatever fails and is retried, and however calls interleave, in every run in which no two calls compete for a destination: at most one acknowledged post, every later attempt an edit, every edit addressed to that very message (channel without separator), and at most one message besides those the core never heard of |
| OneMessage.PostsAreAddressed | internal/slack/client.go:106-116 | in every run, competing calls or not, every post goes to the recipient of its destination |
| OneMessage.OneLiveOnArrival | internal/slack/client.go:163-187 | however attempts overtake each other on the way to Slack, an edit arrives after the post it edits, and what arrives after the acknowledged post is an edit or an unanswered attempt made before it |
| OneMessage.StoresIff | internal/slack/client.go:134-187 | which attempts of a delivery store a message, and which of those the core hears of, told from the inputs: build, rendering, encoding, ref, the attempts made, what Slack stores and answers, and the reply |
| OneMessage.PostsAreStored | internal/slack/client.go:134-161 | over every run, the messages stored (and those unheard) are counted by those attempts |
| OneMessage.MoreThanOneMessageIff | internal/slackbackend/handler.go:44-67 | without competing calls: at most one stored message is heard of, and Slack holds more than one iff two attempts stored one unheard, or one did beside the heard one |
| OneMessage.CalmRunLeavesTwo | internal/slack/client.go:163-187 | for any two events of a key for different apps and one destination, a run without competing calls, retries or lost replies that leaves two messages |
| OneMessage.TwoPostsIff | internal/aggregator/session.go:112-116 | up to the first moment at which two calls compete for a destination, deliveries can lead to two acknowledged posts iff it is such a moment |
| OneMessage.RiskCanPostTwice | internal/aggregator/session.go:112-116 | from every reachable state with two competing calls, deliveries lead to two acknowledged posts |
| OneMessage.SerialIsCalm | internal/aggregator/session.go:87-221 | where the calls of a key do not overlap, no destination ever has competing calls |
| OneMessage.OverlapPostsTwice | internal/aggregator/session.go:112-116 | any two events of a key for different apps and one destination have a run with two acknowledged messages |
| Latest.ShownIsDelivered | internal/aggregator/session.go:129-160 | in every run, if the last delivery to a destination was acknowledged, the last acknowledged content was built from its events |
| Latest.ShowsLatest | internal/aggregator/session.go:102-139 | where the calls of a key do not overlap and none is in progress, the last delivery was of the stored events routed there, and if it was acknowledged the message was last set to what they build to |
| Latest.RepeatDeliversNothing | internal/aggregator/session.go:100-120 | within the TTL a call is unchanged iff the session holds the content of all its events, and then it has nothing to deliver |
| Schedule.PromptIsSerial | internal/aggregator/engine.go:112-133 | with times and every race, calls that are done less than min(IdleWindow, MaxWait) after their flush never overlap within a key |
| Schedule.PromptCallsKeepOneMessage | internal/aggregator/session.go:149-192 | then every destination of every session has one live message |
| Build.BuildNotification | internal/notification/build.go:27-55 | fails iff there are no events; otherwise, for every map order, the notification of these events under some event's group key |
| Build.Summary | internal/notification/build.go:57-70 | for every map order, the text over the one sorted list of triggers |
| Build.BuildIsDeterministic | internal/notification/build.go:27-70 | with one group key among the events, any two results are equal |
| Build.ItemsAreSortedAndComplete | internal/notification/build.go:43-50 | items in strict app order, each the item of its app's event, one for every app with a known trigger |
| Build.OneItemPerKnownApp | internal/notification/build.go:43-50 | as many items as apps with a known trigger, under exactly their names |
| Build.ItemContents | internal/notification/build.go:72-193 | which parts of an item are filled, by trigger, and what the link to the commit and the cut texts are |
| Build.ItemValues | internal/notification/build.go:72-193 | what the filled parts hold: defaults, the link, the short commit and its address, the fields and the cut message |
| Build.SummaryCountsAddUp | internal/notification/build.go:35-66 | the counts of the summary add up to the number of apps |
| Build.SummaryReads | internal/notification/build.go:64-69 | the text is the group key, then for each trigger in order its count in decimal digits and its name without "on-" |
| Order.LessIff | internal/notification/build.go:41 | the order sorted by: the first difference decides, and a proper prefix comes first |
| Wire.ToWireNotification | internal/remotebackend/backend.go:94-100 | item by item the wire form, which decodes to the same notification |
| Wire.ToWireItem | internal/remotebackend/backend.go:102-137 | an optional field is present iff it is non-empty |
| Wire.FromWireNotification | internal/slackbackend/convert.go:12-18 | item by item the domain form; encoding it again gives the same wire form iff no optional field was present and empty |
| Wire.FromWireItem | internal/slackbackend/convert.go:20-55 | an absent optional field becomes the empty one |
| Wire.RoundTrip | internal/slackbackend/convert.go:8-18 | what the backend decodes is what the core encoded, for every notification |
| Wire.ReverseRoundTripIff | internal/remotebackend/backend.go:94-137 | the other way round iff no optional field is present and empty |
| Render.RenderNotification | internal/slack/render.go:63-79 | at most 100 attachments, the first items in order, and shown items plus "+N more" equals the renderable ones |
| Render.TablesAgree | internal/slack/render.go:52-61 | a trigger has a renderer iff it has an item builder |
| Render.NothingIsDropped | internal/slack/render.go:63-71 | every item has a place or is counted iff every item's trigger is known |
| Render.RenderableAppend | internal/slack/render.go:63-71 | what two lists show is what the first shows, then what the second shows |
| Render.OneRenderable | internal/slack/render.go:65-70 | an item is shown iff its trigger is known |
| Message.OneMessagePerDestination | internal/aggregator/session.go:128-139 | in every reachable state a session's destination has one notification whatever the map order; it reaches the backend unchanged and accounts for every app with a known trigger |

## Left out

- Generated API code, HTTP plumbing, JSON, middleware, logging and the program's start-up: input and output only.
- Leader election, the leader proxy, the pod resolver, the template watcher and custom templates.
- Block Kit layout, the text of thread replies and the texts of errors.
- SHA-256: the string it digests stands for the digest, which takes it as collision-free.
- Bytes: strings are sequences of code points, so the cuts at 8 and 300 count code points, not bytes, and never fall inside a character.
- Integer width: times, durations and generations are unbounded; overflow and the saturation of Go's time subtraction do not occur.
- Reading the clock: the two timers that one `Ingest` starts are counted from the same instant.
- Shutdown: events still queued or bucketed when the process ends are lost in the program and stay where they are in the model.
- The worker goroutines appear as the steps Take and IngestBy of `Pipeline`, not as loops.
- Loading of settings, including what environment variables default to.
- The heartbeat of the Slack backend: registrations come as arbitrary `Register` calls.
- Errors of thread replies: which replies are attempted is modelled, not how they end.
- Debounce.DebounceIsExact: stated for urgent timers and without an expired callback that loses the lock to `Ingest`, because such a callback may close a batch early (`Race.FlushedEarly`); `Race` and `Pipeline` cover those runs.
- Timing.ReachesTheSameSession: stated with a bound `lag` on the time from a flush to the publisher's lock, because deliveries of earlier calls of the same flush come before it; the program bounds these only through the backends' time-outs.
- Latest.ShowsLatest: what the message shows after an attempt whose answer was lost took effect later is not followed.
- SessionPublishing.SessionPublisher.Upsert: stated for a call without interference; interleaved calls are the steps of `Protocol`, on values.
- OneMessage.OneLiveMessage: stated for runs in which no two calls compete for the destination, because otherwise it is false (`OneMessage.TwoPostsIff`). "Later" is the order of deliveries; attempts that reach Slack out of that order are in `OneMessage.OneLiveOnArrival`.
- Debounce.FlushedWithinMaxWait: stated for the same runs as `Debounce.DebounceIsExact`.
- Receiver.Handler.Receive: one receive; the worker's loop and its end by cancellation are not in it, and the call to `Ingest` is the step IngestBy of `Pipeline`.
- Flush.FlushBatch: order is stated per trigger when triggers are combined, because Go ranges over the buckets in any order.
- Configuration.Config.Validate: lower-casing is that of ASCII; the two other code points that lower-case into ASCII are the Kelvin sign, and no accepted word has a "k", and the dotted capital I, and no accepted word has an "i".

# BobberChat backend, modelled and proved in Dafny

BobberChat passes messages between agents and users. This project models the parts of its backend that keep state or
translate messages, and proves what they guarantee over whole runs:

* **The rate limiter and the publish gate.** `TokenBucket`, `RateLimit`, `RateSettings` and `Limiter` model the lazily
  refilled token buckets, the eviction of idle ones, and the class that holds them. `Gate` puts up to three buckets in
  front of the store and lets publish calls interleave between their checks; `GateCharges` says whom they are charged
  to. A bucket is one counter; the theorems say that it decides exactly what a limiter would decide that remembers
  every request and checks every past window.
* **The conversation store as a concurrent protocol.** `Database` holds the tables and one atomic function per SQL
  statement, with only the constraints of the schema. `Conversations` makes every call a program counter over its
  statements: any number of calls interleave, any statement may fail, or take effect with its reply lost, and any call
  may stop for good between two statements. `ConversationSafety` proves the invariant of every step;
  `ConversationTheorems`, `MessageRouting` and `Messages` say what follows in every reachable state: who shares which
  conversation, where messages go, and what a polling client gets; `Records` says what the rows of the tables say;
  `Witnesses` runs into what they warn of. `ConversationService` is the service as the program runs it, on mutable
  tables; each method ends where its protocol ends when nobody interferes, and such an ending is one of the protocol's
  runs.
* **The protocol adapters.** `Adapters`, `Mcp`, `Grpc` and `A2a` model `Ingest` and `Emit` on decoded JSON values;
  `Readings` and `Emissions` say, in the words of the protocols, what messages are taken to mean and what envelopes
  are sent as. `Bridges` and `Progress` send envelopes through any number of MCP and gRPC hops; `Requests` and
  `TaskUpdates` send requests and task updates through A2A and back. `TextualJson` shows that what `Requests` asks of
  the JSON library can be had.
* **Credentials.** `Base64` and `Argon2Codec` model the stored form of an agent's secret; `EmailVerification` models
  registration, resending, verification and login as interleaved calls over the users table, `AccountEvents` traces
  its log back to them, and `Accounts` the same service on a mutable table.

`Wrappers`, `Text`, `Envelopes` and `Uuids` hold the shared data types and the string functions.

## How the model is built

* Functions on values specify; a class or a method written like the source is proved equal to its function (`Limiter`,
  `PublishGate`, `Service`, `Accounts`, `Draft`, `IngestInPlace`, `EmitInPlace`, `DecodeArgon2Hash`).
* A protocol is a state, an action type and a step function; `After(actions)` is the state after a sequence of actions,
  so "in every reachable state" is "for every sequence of actions".
* A statement fails without effect (`Fail`), or takes effect and its call hears of it, or does not (`Step` with `heard`
  true or false); a call takes a reply it does not hear for a failure.
* Generated ids, random tokens, clocks, the result of a password comparison and what the store answers are parameters.
  Ids need not be new: an insert with an id that exists fails on the primary key. Tokens do not repeat.
* Time and tokens of the limiter are exact reals. The clock read under the limiter's lock does not run backwards.

## Findings

* A bucket agrees with the window limiter exactly when a full burst is worth one request; below that, the first
  request of a key is let through with a negative balance (`TokenBucket.BucketIsGreedy`).
* Evicting idle buckets is invisible exactly when, in addition, the cleanup period is no shorter than the burst factor
  (`RateLimit.SweepingIsInvisible`), and a dimension keeps its rate in every window under just these conditions on its
  own settings (`RateLimit.KeepsItsRateIff`). Nothing checks the settings.
* A maker that stops early leaves a direct conversation that later calls return although nobody is in it
  (`ConversationTheorems.StoppedMakerLeavesGap`), and a call that loses the race to insert gets an error, not the
  winner's conversation (`ConversationTheorems.InsertRace`); from every reachable state without a conversation of the
  pair the race can be run (`Witnesses.RaceIsLost`).
* A founding that fails because the name is taken leaves a conversation behind that belongs to no group
  (`ConversationService.FoundsAlone`), and an owner who leaves while the group is being founded is a participant all the
  same (`Witnesses.OwnerLeavesInVain`).
* A failed look-up of the recipient among the groups counts as "not a group". A message to a group is then saved to a
  direct conversation with the group's id (`MessageRouting.FailedLookupMisroutes`; from nothing,
  `Witnesses.MessageGoesAstray`), and that is the only way for a message to an existing group to go astray
  (`MessageRouting.ExistingGroupIff`).
* A client that polls from the greatest timestamp it has seen misses a message that is committed with that timestamp, or
  an older one, after the poll (`Messages.MissedWhen`, `Messages.NothingMissedIff`). Senders' timestamps are whole
  seconds, so two messages in one second are enough (`Witnesses.TwoInOneSecond`).
* The list of known tags decides nothing: every well-formed tag is valid (`Envelopes.ValidTagIff`).
* A failed A2A update whose message is present but is no text, or empty, loses that message on the first pass and gains
  "task failed" on the second (`TaskUpdates.TwiceIsOnceIff`, `TaskUpdates.LostMessageIsReplaced`).
* A request that passes through A2A keeps its text and context but loses its task id (`Requests.RequestKeeps`).
* Emitting over gRPC writes to a nil map for progress that has no update but content with fields
  (`Progress.NilMapWriteIff`); no envelope that an adapter has taken in gets there (`Progress.NoAdapterLeadsToNilMap`).
* The parser of stored secrets accepts other spellings of what was printed (`Argon2Codec.OtherSpellings`); exactly the
  canonical ones are printed back (`Argon2Codec.PrintsBackIff`). It lets costs of zero through, and verifying a secret
  against such a text panics (`Argon2Codec.PanicsIff`).

## Model

| member | source | states |
|---|---|---|
| TokenBucket.TokensAreLeastSlack | backend/internal/ratelimit/ratelimit.go:83-106 | after any history of requests to a key, at whatever times, the counter is the least slack of all windows that start at a past request: burst plus refill less grants |
| TokenBucket.LaterAnswer | backend/internal/ratelimit/ratelimit.go:95-106 | after the first request, the bucket grants a request if and only if one more grant keeps every window of the history within its budget |
| TokenBucket.BucketAgrees | backend/internal/ratelimit/ratelimit.go:66-107 | with a burst of at least one request, the answers to any history are those of the limiter that keeps the whole history and checks every window |
| TokenBucket.BucketIsGreedy | backend/internal/ratelimit/ratelimit.go:83-92 | that agreement holds for all histories if and only if the burst is at least one; the unconditional first grant is the reason |
| TokenBucket.WindowBound | backend/internal/ratelimit/ratelimit.go:66-107 | under a clock that does not run backwards, grants in any time window, wherever it starts, are at most burst plus rate times length |
| RateLimit.FullKeyInjective | backend/internal/ratelimit/ratelimit.go:76-76 | over the three rated dimensions, the prefixed key determines dimension and key, whatever colons the key contains |
| RateLimit.KeySeesOnlyItself | backend/internal/ratelimit/ratelimit.go:66-107 | the calls to one dimension and key, and its bucket, are what they are in the run that has only these calls and the sweeps |
| RateLimit.NonInterference | backend/internal/ratelimit/ratelimit.go:66-156 | two runs that agree on the calls to a key and on the sweeps give that key the same answers |
| RateLimit.SweepFreeIsGreedy | backend/internal/ratelimit/ratelimit.go:66-107 | without sweeps, each limited key of a many-key limiter gets the answers of the window-checking limiter |
| RateLimit.SweptRunHides | backend/internal/ratelimit/ratelimit.go:82-156 | the bisimulation: with sweeps anywhere, the log is that of the run without them, and every evicted bucket is one that is full again |
| RateLimit.GrantsWithinWindow | backend/internal/ratelimit/ratelimit.go:66-156 | for any interleaving of requests and sweeps, grants of a key in any window are at most burst plus rate times length, if that dimension's own settings are safe, whatever the other dimensions' are |
| RateLimit.AnswersAreGreedy | backend/internal/ratelimit/ratelimit.go:66-156 | for any interleaving of requests and sweeps, a key of a safe dimension gets exactly the answers of the window-checking limiter |
| RateLimit.OtherRatesDoNotMatter | backend/internal/ratelimit/ratelimit.go:131-142 | a run about one key is the same when the other dimensions have no rate |
| RateLimit.KeepsItsRateIff | backend/internal/ratelimit/ratelimit.go:48-156 | a limited dimension keeps its rate in every window of every run if and only if its burst is at least one and the cleanup period is at least the burst factor |
| RateLimit.ChecksEveryWindowIff | backend/internal/ratelimit/ratelimit.go:48-156 | under the same condition, and no other, a dimension answers like the window-checking limiter in every run |
| RateLimit.SweepingIsInvisible | backend/internal/ratelimit/ratelimit.go:48-156 | for a configuration with defaults filled in: sweeps change no answer of any run if and only if every limited burst is at least one and the cleanup period is at least the burst factor |
| RateSettings.EveryRequestIsAnswered | backend/internal/ratelimit/ratelimit.go:66-107 | the log of a run has one answer for each request, in order, and nothing else |
| RateSettings.UnlimitedIsGranted | backend/internal/ratelimit/ratelimit.go:67-74 | in every run every request is granted when the limiter is off, its dimension's own rate is not positive, or its dimension is none of the three |
| RateSettings.KeepsItsOwnRateIff | backend/internal/ratelimit/ratelimit.go:131-142 | in the settings' own fields: in every window of every run a key is granted at most the burst factor times its dimension's rate, and that rate times the length, if and only if the burst is worth one request and the cleanup period is no shorter than the burst factor |
| RateSettings.SweepsAreInvisibleIff | backend/internal/ratelimit/ratelimit.go:146-156 | sweeps change no answer of any run if and only if the limiter is off or this holds for each positive rate |
| RateSettings.FirstRequestsAreGranted | backend/internal/ratelimit/ratelimit.go:83-106 | in every run, whatever the sweeps and settings, the first request of a key is granted, and so are its first burst factor times rate ones |
| Limiter.TrackedBucket.constructor | backend/internal/ratelimit/ratelimit.go:85-90 | a new bucket is a full burst less the request that created it |
| Limiter.TrackedBucket.Take | backend/internal/ratelimit/ratelimit.go:95-106 | refill, cap and debit in place do what the specified bucket does |
| Limiter.Limiter.constructor | backend/internal/ratelimit/ratelimit.go:48-62 | a burst factor that is not positive becomes 10 and a cleanup period that is not positive 300, all else is as given, and there are no buckets |
| Limiter.Limiter.Allow | backend/internal/ratelimit/ratelimit.go:66-107 | the mutable limiter stays the one that its history leads to; the answer and all buckets are the specified ones; when it is off, and for dimensions without a positive rate, it grants and changes no bucket |
| Limiter.Limiter.Cleanup | backend/internal/ratelimit/ratelimit.go:146-156 | the loop deletes exactly the buckets last filled before now less the cleanup period, and answers nothing |
| Limiter.Limiter.KeptItsRate | backend/internal/ratelimit/ratelimit.go:66-156 | at any moment, what the limiter has granted a key in a window is at most the burst factor times the dimension's rate, and that rate times the length |
| Limiter.Limiter.GrantedTheFirst | backend/internal/ratelimit/ratelimit.go:66-107 | at any moment, the first burst of requests of each key has been granted, and so have all that are not limited |
| Gate.CallsAreConsistent | backend/cmd/bobberd/main.go:1215-1245 | in every interleaving, each publish call has passed exactly the checks that come before its stage; the group check only for group recipients |
| Gate.GateConserves | backend/cmd/bobberd/main.go:1215-1245 | in every interleaving, for every dimension, key and window, the limiter's grants are the publish calls that passed that check, and the refusal counter is the number of calls refused by it |
| Gate.GrantsArePasses | backend/cmd/bobberd/main.go:1215-1245 | all grants of a dimension together are the calls that passed its check |
| Gate.GateBalances | backend/cmd/bobberd/main.go:1215-1245 | at every moment, with calls in flight or stopped: calls are stored ones, refusals at agent, group and tag, and calls in flight; agent, group and tag grants are the stored messages, later refusals and calls in flight past that check |
| Gate.SettledGateBalances | backend/cmd/bobberd/main.go:1215-1245 | with no call in flight, calls are stored ones plus refusals, agent grants are stored ones plus group and tag refusals, and tag grants are the stored ones |
| Gate.PersistedWithinWindow | backend/cmd/bobberd/main.go:1215-1245 | what reaches the store under one charged key is within the window bound of that dimension, in every interleaving, if that dimension's settings are safe |
| Gate.PublishGate.AskLimiter | backend/cmd/bobberd/main.go:1217-1223 | one check asks the limiter about "agent:" and the sender, "group:" and the group, or "tag:" and the routing tag, counts a refusal under that key when there are metrics, and moves the call on or ends it |
| Gate.PublishGate.RunChecks | backend/cmd/bobberd/main.go:1216-1242 | the checks run one after the other, the group's only for group recipients, and a refusal ends them |
| Gate.PublishGate.PublishAndAudit | backend/cmd/bobberd/main.go:1215-1245 | an uninterrupted publish takes the steps of the state machine; the store is asked exactly when every check passed, and without a limiter always |
| GateCharges.CheckAsksFor | backend/cmd/bobberd/main.go:1217-1237 | a check asks the limiter once, under a key that says which sender, group or tag the envelope is from, to or routed by |
| GateCharges.SameBucketIff | backend/cmd/bobberd/main.go:1217-1237 | two checks ask one bucket if and only if both are for the sender and the senders are equal, both for the group and it is the same one, or both for the tag and the tags are equal |
| GateCharges.StoredHavePassed | backend/cmd/bobberd/main.go:1215-1245 | a stored message has passed the checks of its sender and its tag, and of its group if and only if it is addressed to one |
| GateCharges.StoredWithinWindow | backend/cmd/bobberd/main.go:1215-1245 | the stored messages from one sender, to one group or with one tag are, in every window, at most the burst factor times the dimension's rate, and that rate times the length, in every interleaving |
| GateCharges.RefusalsAreCounted | backend/cmd/bobberd/main.go:1219-1221 | a refusal counter is the number of publish calls refused from one sender, to one group or with one tag |
| GateCharges.FewAreNotRefused | backend/cmd/bobberd/main.go:1215-1245 | a sender, group or tag with no more publish calls than a burst is never refused by its check, whatever others do; and none is when the limiter is off or the rate is not positive |
| Uuids.OrderAgrees | backend/internal/conversation/conversation.go:141-146 | comparing the text of two UUIDs gives the same order as comparing their bytes |
| Uuids.CanonicalPair | backend/internal/conversation/conversation.go:141-146 | the swap does not depend on the argument order, keeps the two ids, and satisfies the database's low-before-high check if and only if the ids differ |
| Uuids.CanonicalInjective | migrations/009_rename_dm_ids.sql:13-21 | two canonical pairs are equal if and only if they are of the same two ids |
| Uuids.TextForm | backend/internal/conversation/conversation.go:143-143 | the text that is compared has 36 characters: dashes at 8, 13, 18 and 23, and the sixteen bytes in order as two lower-case hexadecimal digits each |
| ConversationSafety.ExecuteSafe | backend/internal/conversation/conversation.go:19-183 | every statement of every call keeps the constraints of the schema, changes no type, pair, group or message that exists, and leaves the call with what it knows |
| ConversationSafety.EffectOnConversations | backend/internal/conversation/conversation.go:30-48 | a statement inserts at most its call's own conversation and its own group, and changes no other conversation's group id |
| ConversationSafety.EffectOnRows | backend/internal/conversation/conversation.go:106-183 | a statement adds a participant only to its call's own conversation and removes one from group conversations only |
| ConversationTheorems.EveryRunKeepsInv | backend/internal/conversation/conversation.go:19-183 | the invariant holds after every sequence of statements, failures, lost replies and stops of any calls |
| ConversationTheorems.ResultsAreFinal | backend/internal/conversation/conversation.go:133-183 | a call that has returned keeps its result, however the run goes on |
| ConversationTheorems.OneConversationPerPair | backend/internal/conversation/conversation.go:133-183 | no reachable state has two direct conversations for an unordered pair, or one of an id with itself |
| ConversationTheorems.AllOpenTheSame | backend/internal/conversation/conversation.go:133-183 | all calls that return a conversation for a pair, and all direct messages between the two, in either order and at any time, are about the same one, and it is that pair's |
| ConversationTheorems.InsertRace | backend/internal/conversation/conversation.go:158-165 | the insert goes through if and only if the id is new, the pair is not taken and the ids differ; otherwise the call fails and nothing changes |
| ConversationTheorems.DirectRowsAreTheMakers | backend/internal/conversation/conversation.go:158-182 | the participant rows of a direct conversation are exactly those its one maker has inserted so far, the low one first |
| ConversationTheorems.RowsKeepTheKinds | backend/internal/conversation/conversation.go:141-146 | the two rows carry the two ids of the request, each with the kind the caller paired with it |
| ConversationTheorems.CompleteIffMakerWasThrough | backend/internal/conversation/conversation.go:150-182 | both participants are in a direct conversation if and only if its maker has run both inserts |
| ConversationTheorems.CompleteIffMakerWentOn | backend/internal/conversation/conversation.go:158-182 | that is, if and only if the maker's call is not at one of the two inserts, going on or stopped, and did not break off before: no insert of a participant failed, and no reply to the insert of the conversation or of the first participant was lost |
| ConversationTheorems.StoppedMakerLeavesGap | backend/internal/conversation/conversation.go:150-153 | for any two participants there is a run in which a call returns their conversation while nobody is in it |
| ConversationTheorems.DirectRowsStay | backend/internal/conversation/conversation.go:106-129 | no call ever removes a participant of a direct conversation |
| ConversationTheorems.GroupsAndConversationsMatch | backend/internal/conversation/conversation.go:19-59 | every group points at a group conversation, no two share one, a conversation's group id points back at it, and direct conversations have none |
| ConversationTheorems.LinkedIffFounderWasThrough | backend/internal/conversation/conversation.go:46-48 | a group's conversation carries the group's id if and only if its founder ran the linking update |
| Records.SavedMessageSays | backend/cmd/bobberd/main.go:1294-1303 | the message that a call has saved is from its sender, of the sender's kind, with its timestamp, tag, content and metadata, in the conversation the call has found |
| Records.EveryMessageWasSent | backend/internal/persistence/repositories.go:817-858 | every message in the table was saved by a call for it |
| Records.SavedOnce | backend/internal/persistence/repositories.go:833-839 | no two calls save the same message |
| Records.GroupNamesDiffer | migrations/001_initial_schema.sql:51-51 | no two groups of a reachable state have one name |
| Records.EveryGroupWasFounded | backend/internal/conversation/conversation.go:37-41 | every group has the name and the owner that its founder asked for, never an empty name, and the conversation its founder made |
| Records.LeavingRemoves | backend/internal/conversation/conversation.go:128-128 | when the delete of a call that leaves takes effect, the member's row is gone; every other row and every other table is as before |
| Records.LeavesTheGroup | backend/internal/conversation/conversation.go:119-128 | the row it removes is that of the group it was asked to leave |
| Records.JoinsOnlyByFounder | backend/internal/conversation/conversation.go:50-56 | a row that is not among the participants of a group's conversation comes there only by the founder's insert of the owner |
| Records.LeftIsGone | backend/internal/conversation/conversation.go:106-129 | a call that has left its group has removed the member's row at some moment of the run, and the row is there again only if the founder has inserted it since |
| MessageRouting.RouteIsTheLookup | backend/cmd/bobberd/main.go:1278-1292 | a message's one look-up decides its route: found means the group, missed or failed, its reply lost included, means a direct conversation |
| MessageRouting.SavedToGroupIff | backend/cmd/bobberd/main.go:1278-1292 | a message is saved to the conversation of the group it is addressed to if and only if its look-up ran once the group existed and did not fail |
| MessageRouting.ExistingGroupIff | backend/cmd/bobberd/main.go:1278-1292 | for a group that existed before the message was sent: if and only if the look-up did not fail |
| MessageRouting.Routing | backend/cmd/bobberd/main.go:1247-1310 | two persisted messages are in one conversation if and only if both took the same group, or both went directly between the same unordered pair |
| MessageRouting.RoutingByLookup | backend/cmd/bobberd/main.go:1272-1292 | for any two persisted messages: with a group found, if and only if both found the same one; otherwise if and only if they are between the same two ids |
| MessageRouting.SameGroupIff | backend/cmd/bobberd/main.go:1278-1292 | two messages to one existing group are in one conversation if and only if both look-ups went through, or both failed and the sender is the same |
| MessageRouting.RoutingByRecipient | backend/cmd/bobberd/main.go:1272-1292 | when no look-up missed its group or failed, senders and recipients alone decide which messages share a conversation |
| MessageRouting.FailedLookupMisroutes | backend/cmd/bobberd/main.go:1278-1287 | from every reachable state with a group there is a run in which a message to it, whose look-up fails, is saved to a direct conversation with the group's id |
| Messages.LastMessage | backend/internal/persistence/repositories.go:817-858 | in every reachable state the last-message id is null if and only if the conversation has no message; otherwise it names one of its messages, with that message's timestamp |
| Messages.LastIsNewest | backend/internal/persistence/repositories.go:844-848 | if a conversation's messages are committed in chronological order, its last-message time is their maximum: one of them has it and none is later |
| Messages.OnePoll | backend/internal/persistence/repositories.go:869-900 | what is asked for are the conversation's messages after the time and behind the id; a page holds all of them if and only if they fit the limit, 50 unless it is positive; otherwise it is full and holds the newest; it is in descending order of time |
| Messages.NothingIsAhead | backend/internal/persistence/repositories.go:869-900 | after a poll that passes the greatest timestamp seen, no message of the conversation has a greater one, received or not |
| Messages.NothingTwice | backend/internal/persistence/repositories.go:869-900 | no message is received twice |
| Messages.ReceivedIff | backend/internal/persistence/repositories.go:869-900 | a message is received if and only if it is on the page of the first poll that finds it in the tables |
| Messages.MissedWhen | backend/internal/persistence/repositories.go:869-900 | for any order of commits and timestamps: a message is missed if and only if a timestamp not below its own had been seen when it came, or the full page left it out; and how many as new or newer ones decide the latter |
| Messages.NothingMissedIff | backend/internal/persistence/repositories.go:869-900 | a polling client receives every message if and only if none came late to a poll and no backlog exceeded its limit |
| Messages.PollingIsComplete | backend/internal/persistence/repositories.go:869-900 | where timestamps differ, the reversed polls are, under the same condition and no other, the whole history in order |
| Messages.HistoryGrows | backend/internal/persistence/repositories.go:817-858 | as a run goes on, a conversation's history in commit order only grows at its end |
| Messages.RunHistoryIsHistory | backend/internal/persistence/repositories.go:869-882 | the history of a run in which a conversation's timestamps increase is such a history |
| Messages.RunsKeepMessages | backend/internal/persistence/repositories.go:817-858 | the tables that any run shows to successive polls keep every message |
| Witnesses.RaceIsLost | backend/internal/conversation/conversation.go:149-165 | from every reachable state without a conversation of the pair, two calls for it, in either order of its ids, can both find none; then the first inserts it and the second fails |
| Witnesses.MessageGoesAstray | backend/cmd/bobberd/main.go:1278-1292 | from nothing, a run founds a group and saves a message to that group in a direct conversation of its sender with the group's id |
| Witnesses.OwnerLeavesInVain | backend/internal/conversation/conversation.go:37-56 | from nothing, a run in which the owner leaves the group between the inserts of its founder, without an error, and is a participant in the end |
| Witnesses.SameSecondIsMissed | backend/internal/persistence/repositories.go:869-900 | from every reachable state, a message saved with a timestamp that the polling client has already seen leaves its next page empty and is on no later one |
| Witnesses.TwoInOneSecond | backend/internal/persistence/repositories.go:869-900 | from nothing, two messages with one timestamp are sent, and a client that polls in between gets the first and never the second |
| ConversationService.AloneIsARun | backend/internal/conversation/conversation.go:133-183 | after any run, a call that nobody interrupts is a continuation of that run and touches no other call |
| ConversationService.Service.GetDirectByPair | backend/internal/persistence/repositories.go:412-419 | the look-up finds a pair's conversation if there is one |
| ConversationService.Service.CreateConversation | backend/internal/persistence/repositories.go:386-401 | goes through if and only if the pair is there for a direct conversation and in order, the id is new and the pair is not taken; then the row is added as given, with nothing sent and no group, and otherwise nothing changes |
| ConversationService.Service.UpdateConversationGroup | backend/internal/persistence/repositories.go:430-441 | goes through if and only if both rows are there, and changes that conversation's group id and nothing else |
| ConversationService.Service.AddParticipant | backend/internal/persistence/repositories.go:642-659 | goes through if and only if the conversation is there; the row is in the table then, once |
| ConversationService.Service.RemoveParticipant | backend/internal/persistence/repositories.go:661-671 | the row is not in the table afterwards, and every other one is as before |
| ConversationService.Service.CreateGroupRow | backend/internal/persistence/repositories.go:734-753 | goes through if and only if id and name are free and the conversation is there, and adds the row as given |
| ConversationService.Service.SaveAtomically | backend/internal/persistence/repositories.go:817-858 | goes through if and only if the id is new and the conversation is there; then the message is stored as given and the conversation's last-message columns say so; otherwise nothing changes |
| ConversationService.Service.GetOrCreateDirect | backend/internal/conversation/conversation.go:133-183 | returns the direct conversation of exactly these two ids; it fails, without effect, if and only if an id is nil, or there is none and the ids are equal or the new id is not new; an existing one is returned without effect, and a new one gets both as participants with their kinds |
| ConversationService.Service.CreateDirect | backend/internal/conversation/conversation.go:158-182 | goes through if and only if the pair is in order and free and the id is new, and then has inserted the conversation and the two rows; otherwise nothing |
| ConversationService.FoundsAlone | backend/internal/conversation/conversation.go:19-59 | a founding that nobody interrupts succeeds if and only if the name is not empty and free and the ids are new; when only the name or the group's id is taken, it leaves a conversation without a group behind |
| ConversationService.Service.CreateGroup | backend/internal/conversation/conversation.go:19-59 | the same of the statements in place: which tables hold what after a success and after each failure |
| ConversationService.Service.LeaveGroup | backend/internal/conversation/conversation.go:106-129 | goes through if and only if the group is there and has a conversation; then the member's row is not in that conversation, and every other row and table is as before |
| ConversationService.Service.PersistMessage | backend/cmd/bobberd/main.go:1260-1309 | goes through if and only if the message id is new and the recipient is a group or can be talked to directly; then the message is stored from the sender with the sender's kind, timestamp, tag, content and metadata, in the group's or the two ids' conversation, and every other message is as before |
| Adapters.DecodedTwice | backend/internal/adapter/mcp/mcp.go:82-85 | only the first trip over JSON changes a value: its integers become floating-point numbers |
| Adapters.OnlyIntegersChange | backend/internal/adapter/mcp/mcp.go:82-85 | the wire leaves a value as it is if and only if there is no integer in it, at any depth, and an integer becomes the number of the same value |
| Adapters.MadeIsAccepted | backend/internal/protocol/envelope.go:61-92 | an envelope addressed by an adapter, with a valid system tag, passes validation and is routed by that tag |
| Adapters.Draft.constructor | backend/internal/adapter/mcp/mcp.go:88-112 | to the trimmed X-Target-Agent header, or "broadcast"; from the trimmed agent id, or else the adapter's name and the trimmed connection id or "unknown" |
| Envelopes.ValidTagIff | backend/internal/protocol/tags.go:81-123 | a tag is valid if and only if it is tokens of lower-case letters, digits and hyphens between single dots; that it is a known one adds nothing |
| Readings.RoutedBy | backend/internal/protocol/envelope.go:41-59 | the sender's own tag routes a message; only without one the system's tag, and only if it is a text |
| Readings.ValidIff | backend/internal/protocol/envelope.go:61-92 | an envelope is valid if and only if id, sender and recipient are not blank, its time is well formed and it is routed by a valid tag |
| Readings.McpCameBy | backend/internal/adapter/mcp/mcp.go:87-112 | whatever an accepted message says, its envelope is to the trimmed header or "broadcast", from the trimmed agent id or "mcp:" and the connection, with the fresh id, the time, no tag of its own, and the adapter's note |
| Readings.GrpcCameBy | backend/internal/adapter/grpc/grpc.go:107-132 | the same for gRPC, with "grpc:" |
| Readings.A2aCameBy | backend/internal/adapter/a2a/a2a.go:75-100 | the same for A2A, with "a2a:" |
| Readings.McpReads | backend/internal/adapter/mcp/mcp.go:114-165 | a message is accepted if and only if it is JSON-RPC 2.0 and an error or result with an id, a notification, or a call of a tool by name; and exactly what each of them records |
| Readings.McpIds | backend/internal/adapter/mcp/mcp.go:236-252 | a request id that is a text is kept, a whole number becomes its decimal notation, and null nothing |
| Readings.GrpcReads | backend/internal/adapter/grpc/grpc.go:134-191 | a message is accepted if and only if it is a unary call by service and method, a unary answer with a known status, or a stream message with its stream; and exactly what each of them records |
| Readings.IntentIff | backend/internal/adapter/a2a/a2a.go:266-279 | a request is for data if and only if one of the thirteen words occurs in its text or its capabilities in lower case, and otherwise for an action |
| Readings.TextsInOrder | backend/internal/adapter/a2a/a2a.go:382-413 | the texts of a message are the trimmed ones of its text parts, in their order |
| Readings.CapabilitiesInOrder | backend/internal/adapter/a2a/a2a.go:415-434 | the capabilities are the trimmed names in lower case, in their order |
| Readings.A2aReads | backend/internal/adapter/a2a/a2a.go:102-179 | a message is accepted if and only if its method is one of four, without white space around it, and has what it needs; and exactly what metadata and content each of them records |
| Emissions.Codes | backend/internal/adapter/mcp/mcp.go:277-302 | an error code that is an integer or its decimal notation is that integer, and values that are neither number nor text are none |
| Emissions.FractionIsDropped | backend/internal/adapter/mcp/mcp.go:289-292 | the fraction of a code is dropped, towards zero |
| Emissions.McpSends | backend/internal/adapter/mcp/mcp.go:170-234 | which envelopes can be sent, and all fields of the message for each |
| Emissions.GrpcSends | backend/internal/adapter/grpc/grpc.go:196-312 | which envelopes can be sent, and all fields of the message for each |
| Emissions.SendingChanges | backend/internal/adapter/grpc/grpc.go:294-300 | sending changes nothing in an envelope but the update of progress, which has the percentage in it afterwards |
| Emissions.A2aSends | backend/internal/adapter/a2a/a2a.go:184-264 | which envelopes can be sent, and method, id and parameters of the message for each |
| Mcp.IngestInPlace | backend/internal/adapter/mcp/mcp.go:75-168 | filling the envelope in place, branch by branch, gives the specified envelope or error |
| Mcp.EmitInPlace | backend/internal/adapter/mcp/mcp.go:170-234 | filling the message in place gives the specified message or error |
| Grpc.IngestInPlace | backend/internal/adapter/grpc/grpc.go:95-194 | filling the envelope in place, branch by branch, gives the specified envelope or error |
| Grpc.EmitInPlace | backend/internal/adapter/grpc/grpc.go:196-312 | filling the message in place gives the specified message or error, and the percentage it writes into the shared update is in the envelope afterwards; content fields without an update end in a write to a nil map |
| Grpc.EmitsAgain | backend/internal/adapter/grpc/grpc.go:294-300 | in spite of the shared update, a second emit says the same and changes nothing more |
| Text.AtoiItoa | backend/internal/adapter/mcp/mcp.go:293-298 | every machine integer survives being printed as a decimal and parsed |
| Bridges.ErrorCrossesIff | backend/internal/adapter/mcp/mcp.go:115-124 | an error crosses one MCP or gRPC hop with its id, code and message if and only if the message is not blank and the id is not empty and, for gRPC, trimmed |
| Bridges.ResultCrossesIff | backend/internal/adapter/grpc/grpc.go:147-156 | an object result crosses one hop with its id if and only if the id fits that protocol |
| Bridges.ActionCrossesIff | backend/internal/adapter/grpc/grpc.go:206-231 | an action with object arguments crosses one hop if and only if it is not blank and, for gRPC, is a trimmed service and method around the first slash |
| Bridges.ErrorsTravel | backend/internal/adapter/grpc/grpc.go:158-164 | over any number of hops, a non-blank message and the code stay, and the id is what the hops make of it in turn |
| Bridges.IdAfterIff | backend/internal/adapter/mcp/mcp.go:268-275 | an id that does not fit some hop is replaced by a clean one and never comes back |
| Bridges.ErrorsTravelIff | backend/internal/adapter/grpc/grpc.go:249-268 | an error arrives with id, code and message if and only if there was no hop, or its message is not blank and its id fits every hop |
| Bridges.ResultsTravel | backend/internal/adapter/mcp/mcp.go:126-134 | over any number of hops, a result is the object the first wire delivered, and its id is what the hops make of it |
| Bridges.ResultsTravelIff | backend/internal/adapter/mcp/mcp.go:198-204 | a result arrives with its id if and only if the id fits every hop |
| Bridges.ActionsTravel | backend/internal/adapter/mcp/mcp.go:140-155 | over any number of hops, the arguments of an action stay, and its name is what the hops make of it, or it fails |
| Bridges.ActionsTravelIff | backend/internal/adapter/grpc/grpc.go:206-231 | an action arrives with name and arguments if and only if the name fits every hop |
| Progress.ProgressCrosses | backend/internal/adapter/grpc/grpc.go:166-181 | progress crosses gRPC under its stream id, or else the envelope's own, with the percentage in its update, and the percentage recorded is the one in the update |
| Progress.ProgressCrossesIff | backend/internal/adapter/grpc/grpc.go:270-300 | it crosses with id, stream and update if and only if the id fits, the stream is not blank, and no percentage has to be added |
| Progress.ProgressTravels | backend/internal/adapter/grpc/grpc.go:270-300 | over any number of gRPC hops, progress keeps its stream, or else the first envelope's own id for one, and the update the first wire delivered, percentage included; its id is what the hops make of it; with neither stream nor id it fails |
| Progress.ProgressNeedsGrpc | backend/internal/adapter/mcp/mcp.go:224-226 | over hops of which any is MCP, progress does not arrive |
| Progress.ProgressTravelsIff | backend/internal/adapter/grpc/grpc.go:166-181 | over any mix of hops, progress arrives with id, stream and update if and only if there was no hop, or all were gRPC, the id fits it, the stream is not blank, and no percentage had to be added |
| Progress.ProgressStaysOffMcp | backend/internal/adapter/mcp/mcp.go:224-226 | progress is refused by MCP |
| Progress.NotificationsStay | backend/internal/adapter/mcp/mcp.go:136-138 | a notification is taken in as context with its summary for content, and no adapter sends context on |
| Progress.NilMapWriteIff | backend/internal/adapter/grpc/grpc.go:270-287 | for any envelope, emitting ends in a write to a nil map if and only if its tag is of the progress family, it has no update, and its content is the text of an object with a field |
| Progress.NoAdapterLeadsToNilMap | backend/internal/adapter/grpc/grpc.go:166-181 | no envelope that gRPC, MCP or A2A took in, whatever it was, gets there |
| A2a.ExtractMessageText | backend/internal/adapter/a2a/a2a.go:382-413 | the loop collects the trimmed texts of the text parts, and falls back on the message's own text |
| A2a.ExtractCapabilities | backend/internal/adapter/a2a/a2a.go:415-434 | the loop collects the names of capabilities in lower case |
| A2a.HasAnyToken | backend/internal/adapter/a2a/a2a.go:513-520 | the loop finds a token if and only if there is one |
| A2a.ReadMessage | backend/internal/adapter/a2a/a2a.go:266-296 | the intent of text and capabilities gives the tag, and the payload is the specified content |
| A2a.ReadNewTask | backend/internal/adapter/a2a/a2a.go:314-333 | putting the payload of a new task together step by step gives the specified payload or error |
| A2a.NewTaskMovesAway | backend/internal/adapter/a2a/a2a.go:125-141 | moving the keys of a new task into the metadata leaves the specified metadata and an empty payload |
| A2a.ReadUpdate | backend/internal/adapter/a2a/a2a.go:335-380 | putting the payload of a task update together step by step gives the specified payload, tag or error |
| A2a.PayloadMovesAway | backend/internal/adapter/a2a/a2a.go:149-169 | moving the keys of the payload into the metadata one by one leaves the specified metadata and an empty payload |
| A2a.MoveKey | backend/internal/adapter/a2a/a2a.go:149-152 | moves one key, if it is there |
| A2a.Fill | backend/internal/adapter/a2a/a2a.go:102-173 | each of the four methods fills metadata and content in place as specified |
| A2a.IngestInPlace | backend/internal/adapter/a2a/a2a.go:63-182 | filling the envelope in place, method by method, gives the specified envelope or error; a method with spaces around it passes validation and is refused afterwards |
| Requests.RequestArrives | backend/internal/adapter/a2a/a2a.go:195-200 | a request sent out and taken in again is a request; its tag follows from its trimmed text alone, and of its metadata only the tag is left |
| Requests.RequestKeeps | backend/internal/adapter/a2a/a2a.go:472-501 | it would go out again with the old text, trimmed, unless that is blank, in the old context, but without its task |
| Requests.TextSurvivesIff | backend/internal/adapter/a2a/a2a.go:487-501 | the trimmed text survives a second time out if and only if it is not blank |
| Requests.RequestsTravel | backend/internal/adapter/a2a/a2a.go:195-200 | over any number of passes a request with a visible text keeps text, context and the tag of that text; its task is gone after the first |
| TextualJson.SomeLibraryReadsBack | backend/internal/adapter/a2a/a2a.go:195-200 | what RequestKeeps, TextSurvivesIff and RequestsTravel ask of the JSON library, that it reads objects of text back, can be had |
| TaskUpdates.IngestedUpdate | backend/internal/adapter/a2a/a2a.go:143-169 | a task update is accepted if and only if it has a task id and one of the three statuses, and what its envelope then carries |
| TaskUpdates.PassNormalizes | backend/internal/adapter/a2a/a2a.go:202-249 | every accepted update comes out, over the wire, in one normal form computed from its parameters, under the fresh id |
| TaskUpdates.PassKeepsUpdate | backend/internal/adapter/a2a/a2a.go:335-380 | an accepted update keeps task id and status; completed and in-progress ones keep their result, or have none |
| TaskUpdates.NormalTwiceIff | backend/internal/adapter/a2a/a2a.go:221-230 | normalising twice is normalising once if and only if no message was lost |
| TaskUpdates.TwiceIsOnceIff | backend/internal/adapter/a2a/a2a.go:357-374 | a second pass changes nothing but the id if and only if the update is not a failed one whose message is present but is no text, or empty |
| TaskUpdates.FailureTwice | backend/internal/adapter/a2a/a2a.go:357-374 | a failure comes out of a second pass as out of the first, unless its message was lost; then the default message is added |
| TaskUpdates.LostMessageIsReplaced | backend/internal/adapter/a2a/a2a.go:221-230 | the first pass drops a lost message and the second says "task failed" instead, everything else unchanged |
| TaskUpdates.MessagesAreLost | backend/internal/adapter/a2a/a2a.go:225-227 | there is such an update: a failed task with an empty message |
| TaskUpdates.ThirdPassChangesNothing | backend/internal/adapter/a2a/a2a.go:143-249 | after two passes every accepted update has settled |
| Base64.RoundTrip | backend/internal/auth/auth.go:368-369 | unpadded base64 decodes to the bytes it was made from, for all bytes |
| Base64.CanonicalTexts | backend/internal/auth/auth.go:426-430 | encoding gives an accepted text back if and only if it has symbols only and its spare bits are zero |
| Base64.SymbolsAreTheTable | backend/internal/auth/auth.go:368-369 | the symbols are those of Table 1 of RFC 4648, in its order |
| Base64.EncodesInThrees | backend/internal/auth/auth.go:368-369 | four symbols, read in base 64, are the number that three bytes are in base 256, and the rest is encoded likewise |
| Base64.EncodesTheEnd | backend/internal/auth/auth.go:368-369 | one or two bytes at the end are filled up with zeros, and as many symbols are left out |
| Base64.DecodesIff | backend/internal/auth/auth.go:426-430 | the decoder accepts a text if and only if, but for line breaks, it has symbols only, and not one more than a multiple of four |
| Argon2Codec.DecodeArgon2Hash | backend/internal/auth/auth.go:382-432 | assigning the results one by one gives the specified values or error |
| Argon2Codec.AcceptsIff | backend/internal/auth/auth.go:382-432 | a text is accepted if and only if it has six fields, the algorithm's name, version 19, three decimal costs of 32, 32 and 8 bits, named or not, and two base64 texts; and its values are theirs |
| Argon2Codec.PrintedDecodes | backend/internal/auth/auth.go:349-432 | for all 32-bit memory and iterations, 8-bit parallelism, salts and hashes, the parser returns exactly what was printed |
| Argon2Codec.PrintIsInjective | backend/internal/auth/auth.go:370-370 | different hashes are printed differently |
| Text.PlainIsPrinted | backend/internal/auth/auth.go:406-416 | printing gives digits back that have no leading zero |
| Text.JoinSplit | backend/internal/auth/auth.go:383-383 | joining the parts of a split gives the text back |
| Argon2Codec.PrintsBackIff | backend/internal/auth/auth.go:370-432 | for every text the parser accepts, printing what was parsed gives the text back if and only if nothing stands before the first separator, the version is bare, every cost has its name and no leading zero, and both byte strings are plain base64 |
| Argon2Codec.OtherSpellings | backend/internal/auth/auth.go:383-420 | for every hash and any text before the first separator there is another spelling that the parser accepts as the same hash |
| Argon2Codec.AcceptsExactlyItsSecret | backend/internal/auth/auth.go:349-380 | a stored hash accepts its own secret, accepts another one if and only if the same key is derived from it, and otherwise rejects it; only the empty secret has no hash |
| Argon2Codec.PrintedHash | backend/internal/auth/auth.go:354-370 | a new hash is printed with version 19 and m=65536,t=3,p=2, its salt, and the key of 32 bytes derived with these |
| Argon2Codec.ChecksWithStoredCosts | backend/internal/auth/auth.go:373-380 | a secret is checked with the salt, the costs and the key length that are stored, whatever they are |
| Argon2Codec.PanicsIff | backend/internal/auth/auth.go:373-380 | for every stored text and secret, verifying panics if and only if the text parses and its rounds or threads are written with zeros alone; a printed hash panics if and only if it has no rounds or no threads |
| Argon2Codec.AcceptedTextPanics | backend/internal/auth/auth.go:410-418 | there are such texts for every salt and key |
| EmailVerification.EveryRunKeepsInv | backend/internal/auth/auth.go:57-185 | in every reachable state the rows are what the log of written and redeemed tokens says, tokens and emails are unique, and every redemption and login in the log was justified |
| EmailVerification.TokensWorkOnce | backend/internal/persistence/repositories.go:321-352 | no token is redeemed twice in a run |
| EmailVerification.RedemptionFollowsWriting | backend/internal/persistence/repositories.go:306-352 | a redemption uses the token last written for that user, before it expires and not yet redeemed |
| EmailVerification.LoginFollowsRedemption | backend/internal/auth/auth.go:102-136 | every login that gets through comes after a redemption by that user |
| EmailVerification.VerifiedIffRedeemed | backend/internal/persistence/repositories.go:321-330 | a user is verified if and only if a token of theirs was redeemed |
| EmailVerification.VerifiedForGood | backend/internal/persistence/repositories.go:306-330 | a verified email stays verified, however the run goes on |
| EmailVerification.VerifiesIffPending | backend/internal/auth/auth.go:138-145 | presenting a text verifies a user if and only if, trimmed, it is that user's last written token, not redeemed and not expired; no other row changes |
| AccountEvents.LoginsHadThePassword | backend/internal/auth/auth.go:102-117 | every login that got through was let through by the step of a call with a password that matched, for the user whose email it named, who was verified then |
| AccountEvents.TokensLastALifetime | backend/internal/auth/auth.go:81-84 | every token was written by a call that registers or asks again, for the user whose email it named, and expires one lifetime after its writing |
| AccountEvents.RedemptionsPresentedIt | backend/internal/persistence/repositories.go:321-330 | every redemption was by a call that presented the token, which the user's row held and which had not expired |
| AccountEvents.LogsInIff | backend/internal/auth/auth.go:102-117 | in every reachable state, a login gets through as a user if and only if the user has the email, the password matches and the user is verified; no row changes |
| AccountEvents.RegistersIff | backend/internal/auth/auth.go:68-74 | a registration inserts its user, unverified, if and only if the id is new and nobody has the email, trimmed and in lower case |
| AccountEvents.ResendsIff | backend/internal/auth/auth.go:153-159 | a call that asks again gets a new token for a user if and only if the user has the email and is not verified |
| AccountEvents.WritesToken | backend/internal/persistence/repositories.go:306-319 | writing replaces that user's token and expiry and nothing else |
| Accounts.AloneIsARun | backend/internal/auth/auth.go:57-185 | after any run, a request that nobody interrupts is a continuation of that run |
| Accounts.AloneKeepsInv | backend/internal/auth/auth.go:57-185 | a request that nobody interrupts keeps the invariant |
| Accounts.Accounts.constructor | backend/internal/auth/auth.go:43-55 | a lifetime of zero becomes a day |
| Accounts.Accounts.SetVerificationToken | backend/internal/persistence/repositories.go:306-319 | replaces that user's token and expiry if and only if the user is there, and nothing else |
| Accounts.Accounts.RegisterUser | backend/internal/auth/auth.go:57-100 | goes through if and only if email and password are filled in, the id is new and nobody has the email; then the user is there, unverified, with the token, which expires a lifetime later; otherwise nothing changes |
| Accounts.Accounts.ResendVerification | backend/internal/auth/auth.go:147-185 | goes through for a user if and only if the user has the email and is not verified; then that user's token and expiry are new and nothing else; otherwise nothing changes |
| Accounts.Accounts.VerifyEmail | backend/internal/auth/auth.go:138-145 | verifies a user if and only if the user's token is the text, trimmed and not blank, and has not expired; the token is gone then, and every other row is as before |
| Accounts.Accounts.LoginUser | backend/internal/auth/auth.go:102-136 | lets a user in if and only if email and password are filled in, the user has the email, the password matches and the user is verified; which error otherwise; no row changes |

## Left out

- Floating-point rounding, and overflow of durations, in the limiter: tokens and times are exact reals.
- SQL typing, drivers and isolation levels: each statement is atomic, and `Save` is one step. The owner's foreign key
  of a group is not a column constraint of the model; its violation is one of the failures any statement may have.
- Parsing of ids and timestamps that arrive as text, and the repository errors behind a nil service or database.
- The order of messages with equal timestamps: a page may list them in any order, and which of them a full page leaves
  out is the database's choice.
- Messages.PollingIsComplete: the order of the reversed polls is stated for messages with different timestamps, because
  equal ones have no order; that nothing is missed is stated without it (`Messages.NothingMissedIff`).
- The row loops of the repositories' list queries: they copy what the statement returns.
- JSON bytes, case-insensitive field names and precision of large numbers: adapters start from decoded values and
  numbers are exact. The library's text of a non-integral number and of dynamic values is a parameter; where an object
  is written as content and read back, the theorems name what they need of that: the empty object
  (`EmptyComesBack`), or objects of nothing but text (`JsonIsReadBack`), which is all an outbound message has.
- Aliasing of maps between an envelope and a message in the adapters, but for the one map that is written to after it
  is shared: the update of gRPC progress.
- Case folding: lower case is a parameter for A2A texts.
- Request ids over MCP and gRPC action requests, and MCP ids that are numbers: the program turns them into text or
  keeps them in the adapter's note only.
- Conversion of an out-of-range float to an integer code is the least integer, as on amd64.
- bcrypt, Argon2, JWT signing and randomness: the password comparison is a parameter, the key derivation any function
  of its inputs for at least one round and one thread, also for a stored key of no bytes, and random tokens do not
  repeat. Emails are lowered for ASCII letters.
- Replaying a message, which addresses a conversation id as an entity; the unread count; connection requests, the
  blacklist, the registry and the command line.
- Limits for groups end to end: the gate keys on a group prefix that persisting a message does not accept, so the
  group bound is stated at the gate.
- The delivery of verification emails; sending one has no effect on the tables.

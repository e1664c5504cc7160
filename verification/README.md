# Connect hub: a Dafny model

This project models the Connect hub and proves what it promises: the request router that correlates
peer requests with replies, the standalone backend that registers nodes and keeps the roster, the
roster update that runs through both, and the text codecs for API keys, TURN usernames and client
versions.

| files | subject |
|---|---|
| `Wrappers`, `Text`, `Decimal`, `Numerals` | options and results, 64-bit wrap-around, splitting and joining, decimal integers, base 62 and base 256 numerals |
| `Streams`, `Routing` | one serving stream, and a group's router, as transition systems: every step is one atomic action of some goroutine |
| `RoutingInvariant`, `RoutingEffects`, `RoutingRuns`, `RoutingTheorems`, `RoutingWitnesses` | the router's inductive invariant, what each step changes, properties of whole runs, and runs that refute plausible claims |
| `RpcTable`, `AtomicCalls` | an atomic call table, and its refinement with calls issued at the registration and at the hand-off |
| `RoutingObjects` | the router's mutable objects, each method proved equal to one step of `Routing` |
| `BackendState`, `BackendInvariant`, `BackendColumns`, `BackendRuns`, `BackendTheorems` | the tables, one operation per SQL statement or transaction, their invariant, where each column comes from, and properties of runs |
| `BackendObjects`, `Tokens` | the backend's handlers on mutable tables, with rollback, and registration tokens |
| `HubServer` | authentication and UpdateRoster end to end |
| `Base62`, `ApiKeys`, `TurnCreds`, `Versions`, `Sharding` | the codecs and the sharding rule |

How the model is cut:

- **Router.** A call of `routeRequest` is split into counter increment, locked look-up, hand-off in
  `send` (or its failure) and locked registration; `connect` is split between cancelling the previous
  connector and marking it evicted, because the evicted flag is read without the mutex. Runs contain
  any number of calls, connectors and shard timers in any interleaving. A second close of a future's
  channel would set `panicked`; the invariant says it never is.
- **Backend.** The pool has a single connection, so one statement or transaction is one operation and
  a handler of several statements is several operations. Any of them may instead fail and roll back.
- **Parameters.** SHA-256, HMAC, protobuf encoding and decoding, `strings.TrimSpace`, random bytes,
  clock readings, the rate limiter's verdict and the point at which the database fails are arguments,
  so every theorem holds for all of them.
- **Strings** are bytes, one character each. 64-bit wrap-around is explicit where it can occur (the
  request counter, the roster's expected version); the int32 scan of a node number is a failing
  statement. The theorems about router runs hold up to 2^64 calls in one group, after which request
  IDs repeat.

## What turned out false, and exactly when it holds

- *Every registered future's node is connected.* False: `RegisteredWithoutConnector` is a run in
  which the node hangs up between hand-off and registration. `StrandedByRemoval` gives the exact
  interval: a pending registered future has lost its connector if and only if the removal fell between
  the call's look-up and its registration. The model takes the permissive reading of Go's `select`: as
  long as the send loop is waiting, a send on a connector cancelled after the look-up may still be
  picked (`StrandedBeforeHandOff`). A runtime that commits the waiting loop on cancellation has fewer
  runs; for a hand-off on a connector not yet cancelled the interval is the one between hand-off and
  registration (`StrandedAfterLiveHandOff`).
- *Every reply to a call that was handed off completes it.* False: `OvertakenByReply` is a run in
  which the reply is processed before the registration and dropped. `StrandedByReply` and
  `ReplyCountsIff` say exactly when. `AtomicIff` collects the three kinds of gap step; a run is one of
  an atomic call table exactly as far as it has none (`RunIsAtomicIff`).
- *The reply to a call comes from the node called.* False: a reply is matched by its request ID alone, on
  whichever stream of the group it arrives (`AnsweredByAnother`). True exactly when the stream of the
  completing reply is that node's (`AnsweredByNodeIff`).
- *An evicted stream always ends with Aborted.* False: `EvictedWithoutAborted`. It does exactly when
  the flag was already set at the moment the handler read it (`AbortedIffSeen`); the other direction,
  Aborted only when superseded, always holds (`ExitStatusSound`).
- *A deleted group has no live nodes.* False when a node registered between the two statements of the
  delete survives to the second (`LiveNodeInDeletedGroup`). True exactly when every node registered in
  between is also deleted in between (`DeletedGroupIsEmptyIff`); the reset endpoint has the same
  condition (`ResetGroupIsEmptyIff`).
- *A registration leaves the reported quota unchanged.* Exactly for clock times at which the redeemed
  token had not expired. From its expiry on, the token no longer counts as pending and the report
  grows by one with the new node (`RedeemKeepsQuotaIff`).
- *The author of an accepted roster is a live node.* It was when it authenticated; at acceptance, exactly
  if nothing deleted it in between (`AuthorLiveIff`, `AuthorDeletedMeanwhile`).
- *Every generated key parses.* Exactly when its environment has no underscore (`ParseOfGenerated`).
- *Every minted TURN username parses.* Exactly under the rates named in `ParseOfMinted`: `Mint` accepts
  negative floors and ceilings below the floor, `Parse` does not.
- *A credential expires when its second has passed.* Not for an expiry within 62135596800 seconds of the
  int64 maximum: Go counts from the year 1 and overflows, so such a credential has expired at every
  ordinary moment (`ExpiredIff`). The hub's ten-minute expiry never gets there.
- *Decoding an encoded byte string gives it back.* Whenever encoding does not panic, except at width
  zero, where the encoding of an all-zero or empty input is the empty string, which decoding refuses
  (`DecodeOfEncoded`).
- *The stored version is the last addendum's.* False: the hub never compares the two, so the roster's
  own version may run ahead (`VersionRunsAhead`). They agree exactly when the caller made them agree
  (`AcceptedIsNext`).

## Model

| member | source | states |
|---|---|---|
| `RoutingInvariant.InvStep` | `connect/hub/routing.go:120-218` | every atomic step keeps the router invariant: table entries are pending calls under their own ID, each connector is current, evicted by a newer one or disconnected, no done channel is closed twice |
| `RoutingInvariant.RegisterIsFresh` | `connect/hub/routing.go:195-197` | registration never overwrites an entry of the futures map |
| `RoutingInvariant.ClearEffect` | `connect/hub/routing.go:165-174` | clearFutures fails and removes exactly the registered futures of the node, each once, and touches no other |
| `RoutingEffects.EnabledIff` | `connect/hub/routing.go:79-218` | when each step can be taken: the mutex, the call's progress, a waiting loop, a cancelled connector |
| `RoutingEffects.ConnectFreshEffect` | `connect/hub/routing.go:30-43` | a new connector, with its node and version header, unserved and with nothing sent, becomes current; nothing else changes |
| `RoutingEffects.ConnectCancelEffect` | `connect/hub/routing.go:125-130` | the previous connector is cancelled and exactly the node's registered futures fail with "node disconnected"; nothing else changes |
| `RoutingEffects.ConnectInstallEffect` | `connect/hub/routing.go:131-133` | the previous connector is evicted and the new one current; nothing else changes |
| `RoutingEffects.DisconnectEffect` | `connect/hub/routing.go:148-163` | a current connector goes with exactly its node's registered futures, a superseded one alone |
| `RoutingEffects.BeginEffect` | `connect/hub/routing.go:176-178` | a call starts with the next 64-bit ID and a pending future |
| `RoutingEffects.LookUpEffect` | `connect/hub/routing.go:180-190` | the call finds its node's current connector, or fails with "not connected" |
| `RoutingEffects.HandOffEffect` | `connect/hub/routing.go:79-100` | the waiting loop takes exactly this call |
| `RoutingEffects.SendFailEffect` | `connect/hub/routing.go:93-96` | the call fails with "node disconnected" |
| `RoutingEffects.RegisterEffect` | `connect/hub/routing.go:194-199` | the future enters the map under the call's ID |
| `RoutingEffects.ReceiveEffect` | `connect/hub/routing.go:202-218` | a reply resolves and removes the future under its ID; check-ins and unknown IDs change nothing |
| `RoutingEffects.StreamEffect` | `connect/hub/routing.go:45-91` | events of a stream touch its connector alone |
| `RoutingEffects.CallProgress` | `connect/hub/routing.go:176-200` | what the next step of an unfinished call is, and that it can be taken once the mutex, the loop or the context allows |
| `RoutingEffects.WhyItFailed` | `connect/hub/routing.go:120-200` | over runs, why a call failed: no connector at its look-up, a cancelled connector at its send, or its node's connector replaced or disconnected while it was registered; and the error for each |
| `RoutingRuns.FutureFate` | `connect/hub/routing.go:176-218` | at every moment of every run a future is exactly one of completed, in the table under its own ID and no other, or held by its unfinished call; nothing has panicked |
| `RoutingRuns.FutureCompletesOnce` | `connect/hub/routing.go:300-331` | a completed future keeps its result for ever, and there is exactly one step at which it completed |
| `RoutingTheorems.RequestIdsUnique` | `connect/hub/routing.go:178` | no two calls of a group share a request ID, and IDs are positive until the 64-bit counter overflows |
| `RoutingTheorems.ReplyIsOwn` | `connect/hub/routing.go:202-218` | a resolved future holds a reply received in the same group while the future was registered, carrying that future's own request ID |
| `RoutingTheorems.AnsweredByNodeIff` | `connect/hub/routing.go:202-218` | a resolved call was answered by the node called if and only if the stream of its one completing reply is that node's |
| `RoutingTheorems.CurrencyOverRuns` | `connect/hub/routing.go:120-163` | a connector that stopped being current never is again; a current one is not evicted; any other was cancelled and evicted by a newer connector of its node or disconnected itself |
| `RoutingTheorems.SupersededDisconnect` | `connect/hub/routing.go:148-156` | disconnecting a superseded connector leaves connectors, futures and calls as they are |
| `RoutingTheorems.RemovalFailsFutures` | `connect/hub/routing.go:120-174` | when a connector stops being current, no registered call to its node is pending and none is left in the table |
| `RoutingTheorems.PcChange` | `connect/hub/routing.go:176-200` | a call moves only by its own look-up, hand-off, send failure or registration, in that order |
| `RoutingTheorems.PhasesExist` | `connect/hub/routing.go:176-200` | every registered call has a look-up, a hand-off and a registration step in this order, all on the connector found at the look-up |
| `RoutingTheorems.StrandedByRemoval` | `connect/hub/routing.go:176-200` | a pending registered future has lost its connector if and only if the removal fell between its look-up and its registration |
| `RoutingTheorems.LiveHandOffNarrowsGap` | `connect/hub/routing.go:93-100` | if the connector was not cancelled at the hand-off, a removal before the registration came after the hand-off |
| `RoutingTheorems.StrandedAfterLiveHandOff` | `connect/hub/routing.go:93-100` | if the connector was not cancelled at the hand-off, a pending registered future has lost it if and only if the removal fell between hand-off and registration |
| `RoutingTheorems.StrandedByReply` | `connect/hub/routing.go:176-218` | a pending registered future has missed its reply if and only if the reply was processed between hand-off and registration |
| `RoutingTheorems.StreamsOverRuns` | `connect/hub/routing.go:79-100` | on every stream at most one thread is in stream.Send, Welcome precedes all requests, requests go out in hand-off order, and each call whose send returned nil was taken exactly once, by the loop of the connector it found |
| `RoutingTheorems.HandOffsAppend` | `connect/hub/routing.go:79-100` | a hand-off appends its call to the connector's log; logs and wires are never rewritten |
| `RoutingTheorems.ExitStatusSound` | `connect/hub/hubsrv.go:483-543` | Aborted only if a newer connector replaced this one; the resharding status only with an assigned shard, a group of another shard, a client of 0.14.0 or newer and a fired timer; an owned stream is never shed |
| `RoutingTheorems.AbortedIffSeen` | `connect/hub/hubsrv.go:526-543` | a handler ends with Aborted if and only if the evicted flag was set at the step that read it |
| `RoutingTheorems.ReshardingIffFired` | `connect/hub/hubsrv.go:536-543` | over runs, a handler past the shed flag read it at one step; it ends with the resharding status if and only if the timer had fired by then, and clean otherwise |
| `RoutingTheorems.ArmedIff` | `connect/hub/hubsrv.go:500-506` | when the handler decides, a timer is armed if and only if the hub has a shard, the group hashes to another and the client is shed-safe |
| `RoutingTheorems.EvictionIsReported` | `connect/hub/hubsrv.go:526-543` | over runs, a handler whose stream was evicted before it read the flag ends with Aborted, not with a clean or resharding status |
| `Streams.ConnInvStep` | `connect/hub/hubsrv.go:483-543` | every action of the handler, the loops and the shard timer keeps a stream consistent |
| `Streams.PossibleIff` | `connect/hub/hubsrv.go:483-543` | in which order the handler moves, and when loop and timer can |
| `Streams.HandlerEffect` | `connect/hub/hubsrv.go:500-543` | where each event leads the handler, and with which status it leaves |
| `Streams.OtherEffects` | `connect/hub/routing.go:79-100` | what each event writes to the client, to the context, to the loop and to the timer |
| `Streams.StreamDiscipline` | `connect/hub/hubsrv.go:500-543` | one sender at a time, Welcome first, requests in hand-off order, exit statuses backed by the flags they report |
| `Streams.EvictionTakesPrecedence` | `connect/hub/hubsrv.go:526-543` | no single action leads an evicted stream whose flag is unread to a clean or resharding status |
| `RpcTable.RpcInvKept` | `connect/hub/routing.go:120-218` | the atomic call table keeps every waiting call on the connection its node is reachable on |
| `RpcTable.StepSimulates` | `connect/hub/routing.go:120-218` | each router step is one atomic event of the call table (issue, reject, reply, up, down with its failures, or nothing); a registration is if its connector is still current |
| `RpcTable.RegistersCurrent` | `connect/hub/routing.go:176-200` | without a gap step every registration finds its connector still current |
| `RpcTable.RunRefinesRpc` | `connect/hub/routing.go:120-218` | a run without gap steps refines the atomic call table from the empty table on |
| `RpcTable.PendingMeansConnected` | `connect/hub/routing.go:176-200` | in a run without gap steps every pending registered future's node has its connector current |
| `AtomicCalls.AtomicIff` | `connect/hub/routing.go:120-218` | with calls issued at the hand-off, a step is atomic if and only if it is no gap step: a hand-off on a connector on its way out, or a removal or reply that overtakes a registration |
| `AtomicCalls.RunIsAtomicIff` | `connect/hub/routing.go:120-218` | a run is one of the atomic call table, from the empty table on, exactly as far as it has no gap step |
| `AtomicCalls.WaitingIsReachable` | `connect/hub/routing.go:176-200` | up to the first gap step every call handed off and not completed, registered or not, has its connection up |
| `AtomicCalls.ReplyCountsIff` | `connect/hub/routing.go:202-218` | a reply to a call handed off and not completed completes that call, unless it overtakes the registration, when it is lost |
| `RoutingWitnesses.RegisteredWithoutConnector` | `connect/hub/routing.go:192-199` | a concrete run: a future stays registered for a node without connector |
| `RoutingWitnesses.OvertakenByReply` | `connect/hub/routing.go:192-218` | a concrete run: the reply is processed before the registration and dropped, the future stays registered |
| `RoutingWitnesses.AnsweredByAnother` | `connect/hub/routing.go:202-218` | a concrete run: a reply on node 2's stream resolves a call to node 1 |
| `RoutingWitnesses.StrandedBeforeHandOff` | `connect/hub/routing.go:93-100` | a concrete run, under the permissive reading of select: the connector is replaced after the look-up, the hand-off on it still succeeds |
| `RoutingWitnesses.EvictedWithoutAborted` | `connect/hub/routing.go:128-132` | a concrete run: an evicted stream leaves with a clean status |
| `RoutingWitnesses.ShedAndReported` | `connect/hub/hubsrv.go:500-542` | for every group, shard and client header that meet the guards, a run in which the stream is shed and leaves with the resharding status |
| `RoutingWitnesses.SomeStreamIsShed` | `connect/hub/hubsrv.go:500-542` | the guards can be met: such a run for a client of release 0.14.0 |
| `RoutingObjects.FutureResponse.Await` | `connect/hub/routing.go:314-321` | returns the future's own outcome or the context's error, the latter only if the context is done; a pending future can only be left through the context |
| `RoutingObjects.FutureResponse.Resolve` | `connect/hub/routing.go:323-326` | completes a pending future with the reply; demands that it is not yet completed, where Go would panic |
| `RoutingObjects.FutureResponse.Fail` | `connect/hub/routing.go:328-331` | completes a pending future with the error, under the same demand |
| `RoutingObjects.ConnectivityGroup.constructor` | `connect/hub/routing.go:112-118` | a new group is the initial state of the transition system |
| `RoutingObjects.ConnectivityGroup.ClearFutures` | `connect/hub/routing.go:165-174` | the loop that deletes while iterating performs exactly the clearing step |
| `RoutingObjects.ConnectivityGroup.Complete` | `connect/hub/routing.go:211-214` | takes a future out of the map and completes it, and changes no other call |
| `RoutingObjects.ConnectivityGroup.CancelPrevious` | `connect/hub/routing.go:125-130` | performs the first half of a replacement: futures failed, previous connector cancelled but not evicted, mutex held |
| `RoutingObjects.ConnectivityGroup.InstallNext` | `connect/hub/routing.go:131-133` | performs the second half: previous connector evicted, new one current, mutex released |
| `RoutingObjects.ConnectivityGroup.Connect` | `connect/hub/routing.go:120-146` | without interruption, both halves of a replacement, or a plain installation; returns the new connector, neither cancelled nor evicted |
| `RoutingObjects.FirstConnectIs` | `connect/hub/routing.go:120-146` | connecting a node that has no connector adds one and makes it current |
| `RoutingObjects.ReconnectIs` | `connect/hub/routing.go:120-146` | reconnecting cancels and evicts the connector replaced, fails exactly the node's registered futures and makes the new connector current |
| `RoutingObjects.ConnectivityGroup.Disconnect` | `connect/hub/routing.go:148-163` | performs the disconnect step; a no-op on the tables for a superseded connector |
| `RoutingObjects.ConnectivityGroup.ProcessResponse` | `connect/hub/routing.go:202-218` | performs the receive step: resolves and removes the matching future, ignores check-ins and unknown IDs |
| `RoutingObjects.ConnectivityGroup.Begin` | `connect/hub/routing.go:176-178` | draws the next request ID, with 64-bit wrap-around |
| `RoutingObjects.ConnectivityGroup.LookUp` | `connect/hub/routing.go:180-190` | performs the locked look-up and creates the future, failed when the node has no connector |
| `RoutingObjects.ConnectivityGroup.HandOff` | `connect/hub/routing.go:93-100` | performs the successful send: the connector's loop holds exactly this call |
| `RoutingObjects.ConnectivityGroup.SendFail` | `connect/hub/routing.go:192-193` | performs the failed send on a cancelled connector |
| `RoutingObjects.ConnectivityGroup.Register` | `connect/hub/routing.go:194-199` | performs the locked registration |
| `RoutingObjects.Router.FindOrCreateGroup` | `connect/hub/routing.go:287-296` | returns the group of that ID, creating it empty if absent, and leaves every other group as it was |
| `RoutingObjects.Router.IsNodeConnected` | `connect/hub/routing.go:251-262` | true exactly if the group exists and the node has a current connector in it |
| `RoutingObjects.Router.Connect` | `connect/hub/routing.go:242-249` | connects in the named group, created on first use, as the connect step says, returns the new connector, which is current, and changes no other group |
| `RoutingObjects.Router.OthersUntouched` | `connect/hub/routing.go:231-234` | a step that writes only one group's objects and new ones leaves the state of every other group as it was |
| `RoutingObjects.Router.ProcessResponse` | `connect/hub/routing.go:202-218` | a reply changes the group it came in on as the receive step says and no other group |
| `RoutingObjects.Router.Disconnect` | `connect/hub/routing.go:51-53` | the disconnect step in the connector's group, and no change in any other |
| `RoutingObjects.Router.RouteRequest` | `connect/hub/routing.go:281-285` | draws the next ID in the named group, created on first use, returns it with the call that carries it, and changes no other group |
| `RoutingObjects.Router.LookUp` | `connect/hub/routing.go:180-190` | the look-up step in one group, and no change in any other; returns the call's future, and the node's current connector if and only if it has one |
| `RoutingObjects.Router.HandOff` | `connect/hub/routing.go:93-100` | the successful send in one group, and no change in any other |
| `RoutingObjects.Router.SendFail` | `connect/hub/routing.go:192-193` | the failed send in one group, and no change in any other |
| `RoutingObjects.Router.Register` | `connect/hub/routing.go:194-199` | the registration in one group, and no change in any other |
| `RoutingObjects.Router.GroupUntouched` | `connect/hub/routing.go:231-234` | groups share no object: one whose objects did not change keeps its whole state |
| `BackendInvariant.InvStep` | `connect/hub/standalone_schema.sql:20-58` | every operation keeps it: node rows numbered 1 to next_node_number - 1 without gaps, as many used tokens, next_node_number at most 2^31, version 0 if and only if no roster, foreign keys, unique live association keys |
| `BackendInvariant.RunInv` | `connect/hub/standalone_grpc.go:69-132` | that invariant holds in every state of every run from the empty schema |
| `BackendInvariant.RedeemEffect` | `connect/hub/standalone_grpc.go:101-132` | a registration marks one token, draws one number and adds one node row under a key not used before |
| `BackendColumns.EnabledIff` | `connect/hub/standalone_grpc.go:77-93` | when an operation goes through: keys unique, references present, and for a registration the look-up's conditions and an int32 number |
| `BackendColumns.NodeStep` | `connect/hub/standalone_rest.go:504-620` | which operations write to a node row, and what |
| `BackendColumns.NewNodeRow` | `connect/hub/standalone_grpc.go:111-125` | a new row has the token's name and metadata in their own columns, the credential hash and the creation time; only a registration adds one |
| `BackendColumns.GroupStep` | `connect/hub/standalone_grpc.go:355-367` | which operations write to a group row, and what |
| `BackendColumns.NewGroupStep` | `connect/hub/standalone_rest.go:160-188` | a new group numbers from 1 and has no roster at version 0 |
| `BackendColumns.TokenStep` | `connect/hub/standalone_grpc.go:126-132` | a token row is written when minted and when used |
| `BackendColumns.MintOf` | `connect/hub/standalone_rest.go:419-434` | over runs, every token row keeps the columns of the request that minted it, but for the used mark |
| `BackendColumns.NodeCarriesRequest` | `connect/hub/standalone_grpc.go:111-125` | over runs, a node carries the metadata of the request that minted its token for good, and its node name until renamed |
| `BackendColumns.LastWriteHolds` | `connect/hub/standalone_rest.go:504-547` | over runs, a rename holds until the next one, a last-seen time until the next connection |
| `BackendColumns.GroupKeepsIdentity` | `connect/hub/standalone_rest.go:160-188` | over runs, a group keeps the name, key and creation time it was created with |
| `BackendRuns.RunLater` | `connect/hub/standalone_grpc.go:69-132` | what is never undone: node rows, their credentials, deletion marks, used marks, and the growth of the next number |
| `BackendRuns.NumbersNeverReissued` | `connect/hub/standalone_grpc.go:101-121` | no group and number pair is issued twice, later numbers are larger, all lie between 1 and 2^31 - 1, through deletes and resets |
| `BackendRuns.TokenRedeemedOnce` | `connect/hub/standalone_grpc.go:77-93` | a token row is redeemed at most once in any run |
| `BackendRuns.RedemptionAddsOneNode` | `connect/hub/standalone_grpc.go:69-132` | a redemption takes an unexpired token of a live group and adds exactly one node, with the token's name and metadata and the new credential; other tokens stay as they were |
| `BackendRuns.RosterChain` | `connect/hub/standalone_grpc.go:355-375` | accepted updates of one epoch form a chain: each expects the version its predecessor set, and versions strictly increase |
| `BackendRuns.AtMostOneWins` | `connect/hub/standalone_grpc.go:355-375` | of updates naming the same expected version within an epoch at most one is accepted |
| `BackendRuns.StoredIsLastAccepted` | `connect/hub/standalone_grpc.go:355-375` | the stored blob and version are those of the last accepted update of the epoch, or none and 0 |
| `BackendRuns.EpochStartsAtZero` | `connect/hub/standalone_rest.go:375-386` | the first accepted update after creation or a reset expects version 0 |
| `BackendTheorems.DeletedIsFrozen` | `connect/hub/standalone_rest.go:315-348` | once a group is marked deleted its row never changes, none of its tokens is redeemed and its live nodes only become fewer |
| `BackendTheorems.LiveMeansRegisteredSince` | `connect/hub/standalone_rest.go:323-335` | after the node-deleting statement every live node was registered later |
| `BackendTheorems.DeleteGroup` | `connect/hub/standalone_rest.go:323-348` | live nodes of a deleted group were registered between the two statements; adjacent statements leave none |
| `BackendTheorems.DeletedGroupIsEmptyIff` | `connect/hub/standalone_rest.go:323-348` | a deleted group is empty if and only if every node registered between the two statements was also deleted between them, whatever else runs in between |
| `BackendTheorems.UndisturbedDeleteIsEmptyIff` | `connect/hub/standalone_rest.go:323-348` | if nothing else deletes nodes of the group meanwhile, it is empty if and only if no node was registered in between |
| `BackendTheorems.ResetGroupIsEmptyIff` | `connect/hub/standalone_rest.go:362-386` | the same condition for the two statements of a reset |
| `BackendTheorems.EmptySinceIff` | `connect/hub/standalone_rest.go:323-335` | at any time after the node-deleting statement the group is empty if and only if every node registered since has been deleted |
| `BackendTheorems.LiveIffRegistered` | `connect/hub/standalone_grpc.go:69-132` | in any run a node is live if and only if it was registered and no operation on it deleted it since |
| `BackendTheorems.StaysLiveIff` | `connect/hub/standalone_grpc.go:69-132` | a live node is live later if and only if no operation in between deletes it |
| `BackendTheorems.LiveNodeInDeletedGroup` | `connect/hub/standalone_rest.go:323-348` | a concrete run: a deleted group with a live node |
| `BackendTheorems.NumberingFailsOnlyWhenExhausted` | `connect/hub/standalone_grpc.go:101-109` | numbering a node can fail by itself only when the int32 numbers are used up |
| `BackendTheorems.RegistrationAuthenticates` | `connect/hub/standalone_grpc.go:168-188` | the token handed out at registration authenticates its node at every later moment it is not deleted, and only what hashes alike does |
| `BackendTheorems.DeletedNodeStaysOut` | `connect/hub/standalone_grpc.go:168-180` | a deleted node never authenticates again |
| `BackendTheorems.MintedTokenFinalizes` | `connect/hub/standalone_grpc.go:66-93` | the stored row is redeemable exactly when unused, unexpired, in a live group, and the submission hashes like codehalf followed by token |
| `BackendTheorems.QuotaConservation` | `connect/hub/standalone_rest.go:283-311` | used tokens are live plus deleted nodes, and the reported quota is minted minus expired unused minus deleted nodes, at any clock time |
| `BackendTheorems.RedeemKeepsQuotaIff` | `connect/hub/standalone_rest.go:283-311` | a registration leaves the quota reported for a clock time unchanged if and only if the token had not expired by then, and raises it by one otherwise; a report read across it is one short in the first case |
| `Tokens.MintedTokenShape` | `connect/shared/integratorapi.go:174-212` | length, lifetime and hashed string of a minted token for each profile |
| `Tokens.AcceptedIff` | `connect/shared/integratorapi.go:174-192` | which requests are accepted, by lengths and profile name |
| `Tokens.RefusedBecause` | `connect/shared/integratorapi.go:174-192` | which complaint comes first |
| `Tokens.MintedTokenIs` | `connect/shared/integratorapi.go:194-211` | the token is the hex of the first four or eight random bytes, hashed behind the codehalf |
| `Tokens.HexIs` | `connect/shared/integratorapi.go:200` | two lower-case digits a byte, high half first |
| `Tokens.HexInjective` | `connect/shared/integratorapi.go:200` | distinct random bytes give distinct tokens |
| `BackendObjects.Backend.RedeemRow` | `connect/hub/standalone_grpc.go:101-132` | the transaction after the look-up is one registration operation, with the token's name and metadata in the new row, or, at any fault, nothing at all |
| `BackendObjects.Backend.CompleteNodeRegistration` | `connect/hub/standalone_grpc.go:64-132` | succeeds as one registration of a matching token and reports the number drawn; NotFound if and only if the look-up runs and no row matches; without a fault fails only for an exhausted group; every failure leaves the tables as they were |
| `BackendObjects.Backend.AuthenticateNode` | `connect/hub/standalone_grpc.go:158-188` | succeeds exactly for a live node and a token with the stored hash, when the look-up does not fail; each error tells which |
| `BackendObjects.Backend.ListNodes` | `connect/hub/standalone_grpc.go:190-236` | when the query does not fail, lists exactly the live nodes, in ascending order |
| `BackendObjects.Backend.UpdateRoster` | `connect/hub/standalone_grpc.go:335-378` | accepts exactly a larger version on a live group at the expected version; each error tells why, and changes nothing |
| `BackendObjects.Backend.DeregisterNode` | `connect/hub/standalone_grpc.go:403-431` | marks the node deleted and nothing else, or changes nothing when the statement fails |
| `BackendObjects.Backend.DeleteConnectivityGroup` | `connect/hub/standalone_rest.go:315-348` | run without interruption it leaves the group deleted and without live nodes; a fault after the first statement leaves the group live |
| `BackendObjects.Backend.ResetConnectivityGroup` | `connect/hub/standalone_rest.go:350-389` | run without interruption, leaves a live group without roster, at version 0, without live nodes, and with its next number unchanged; states what a fault at each statement leaves |
| `BackendObjects.Backend.PostRegistrationToken` | `connect/hub/standalone_rest.go:391-442` | run without interruption, adds one unused row holding the hash of the returned token, for live groups and valid requests only; each error, and a fault at each statement, changes nothing |
| `BackendObjects.Backend.DeleteNode` | `connect/hub/standalone_rest.go:549-620` | run without interruption, deletes the node exactly if group and node are live, the stored roster lists it as revoked and no statement fails; each error told apart |
| `BackendObjects.NodeRevokedInRoster` | `connect/hub/standalone_rest.go:623-635` | true exactly if the blob decodes and lists the number as revoked |
| `HubServer.Authenticate` | `connect/hub/hubsrv.go:571-607` | succeeds exactly for complete, well-formed credentials within the rate limit that the backend accepts without failing, and yields their group and node; each error tells why, the rate limiter before the database |
| `HubServer.GetEndorserCosignature` | `connect/hub/hubsrv.go:214-247` | the reply's signature appears in the roster's last addendum through the shared activation, and nowhere else; each failure leaves the roster as it was |
| `HubServer.Authorize` | `connect/hub/hubsrv.go:158-184` | succeeds exactly for the activated node with its endorser's consent or for the revoker, for every version; the expected version is one below the addendum's in 64 bits |
| `HubServer.UpdateRoster` | `connect/hub/hubsrv.go:139-212` | succeeds if and only if the last addendum is an activation submitted by its new node and cosigned without error or a revocation submitted by its revoker, the roster marshals, and the group is live at the version below the addendum's and below the roster's; then exactly the cosigned roster is stored; every other exit, with its error, leaves the database unchanged |
| `HubServer.SubmissionIff` | `connect/hub/hubsrv.go:158-195` | what reaches the backend, for each kind of addendum |
| `HubServer.RefusalIs` | `connect/hub/hubsrv.go:148-189` | what the caller is told otherwise, in the order of the checks |
| `HubServer.AddendaViewAt` | `connect/hub/hubsrv.go:186-190` | what is stored is what the roster's objects hold, addendum by addendum |
| `HubServer.FirstActivation` | `connect/hub/hubsrv.go:158-195` | a concrete run: the first activation of a group, version 1, is stored with the signature from the reply |
| `HubServer.AcceptedIsNext` | `connect/hub/hubsrv.go:157-195` | a stored roster's last addendum has the stored version plus 1 in spite of wrap-around; the new version is the roster's own, equal to the addendum's if and only if the caller made them equal; stored bytes are the cosigned roster |
| `HubServer.VersionRunsAhead` | `connect/hub/hubsrv.go:157-195` | a concrete run: a registered node's accepted update with addendum version 1 takes the group to version 5 |
| `HubServer.AuthorLiveIff` | `connect/hub/hubsrv.go:142-195` | the author of an accepted roster, live when it authenticated, is live at acceptance if and only if nothing deleted its node in between |
| `HubServer.AuthorDeletedMeanwhile` | `connect/hub/hubsrv.go:142-195` | a concrete run: the author deregisters between authentication and acceptance |
| `HubServer.AddendaAdvance` | `connect/hub/hubsrv.go:157-195` | accepted updates of one epoch have strictly increasing addendum versions |
| `HubServer.SignatureIsTheReply` | `connect/hub/hubsrv.go:214-247` | the stored signature came in a reply, received in the caller's group, to this very call, which was handed off on a connector of the endorser and whose request ID no other call has; the caller is the activated node |
| `Base62.EncodeBase62` | `connect/shared/apikeys.go:149-164` | the loop from the right computes the fixed-width numeral, and panics exactly when the value reaches 62^width |
| `Base62.InitBase62Indices` | `connect/shared/apikeys.go:190-199` | the table holds each alphabet character's digit and 0xFF elsewhere |
| `Base62.DecodeBase62` | `connect/shared/apikeys.go:166-188` | the loop over the table computes the decoding, with the leftmost bad character reported |
| `Base62.DecodeOfEncoded` | `connect/shared/apikeys.go:149-188` | decoding an encoding gives the bytes back whenever encoding does not panic, if and only if the width is not zero |
| `Base62.EncodeOfDecoded` | `connect/shared/apikeys.go:149-188` | encoding a decoding gives the string back, at its own width, whenever decoding succeeds |
| `Base62.DecodeAccepts` | `connect/shared/apikeys.go:166-188` | decoding succeeds on exactly the non-empty encodings of byte strings of the wanted length |
| `Base62.DecodeIs` | `connect/shared/apikeys.go:166-188` | which error decoding gives, with the leftmost foreign character, and which number it yields otherwise |
| `Base62.EncodeIs` | `connect/shared/apikeys.go:149-164` | the encoding has its width and denotes the same number; there is none exactly from 62^width on |
| `Base62.DigitsAre` | `connect/shared/apikeys.go:28` | the digits in ASCII order |
| `Numerals.ValueIs` | `connect/shared/apikeys.go:151` | the first digit weighs most |
| `Base62.EncodePanics` | `connect/shared/apikeys.go:160-162` | no byte string of a length panics if 256^length <= 62^width; otherwise the largest one does |
| `Numerals.KeyWidths` | `connect/shared/apikeys.go:17-23` | 17 and 43 digits hold 12 and 32 bytes, and no smaller widths do |
| `ApiKeys.GenerateSucceeds` | `connect/shared/apikeys.go:46-72` | generation fails only for a blank environment or a short read, never by panicking |
| `ApiKeys.GenerateIs` | `connect/shared/apikeys.go:46-72` | the id encodes the first twelve random bytes, the secret the next thirty-two, whose hash is kept; the text is "wc_", environment, "_", id, ".", secret |
| `ApiKeys.GenerateErrors` | `connect/shared/apikeys.go:46-59` | which error comes first |
| `ApiKeys.ParseOfGenerated` | `connect/shared/apikeys.go:46-147` | a generated key parses back to the same key exactly when its environment has no underscore |
| `ApiKeys.ParseAccepts` | `connect/shared/apikeys.go:102-147` | the accepted strings are exactly those assembled from an environment, an id and the encoding of 32 bytes, whose hash is reported |
| `ApiKeys.KeyTextIs` | `connect/shared/apikeys.go:102-147` | the shape of an accepted key in plain words |
| `ApiKeys.ShapeIff` | `connect/shared/apikeys.go:123-147` | which raw strings split |
| `ApiKeys.ParseErrors` | `connect/shared/apikeys.go:102-111` | which error a refused key gives |
| `ApiKeys.SplitOfAssembled` | `connect/shared/apikeys.go:123-147` | splitting undoes assembling |
| `ApiKeys.AssembledOfSplit` | `connect/shared/apikeys.go:123-147` | assembling undoes splitting |
| `ApiKeys.BearerOfGenerated` | `connect/shared/apikeys.go:86-99` | a generated key is accepted as a bearer token exactly when its environment has neither space nor underscore, with the error for each |
| `ApiKeys.AuthHeaderIff` | `connect/shared/apikeys.go:86-99` | a header is accepted exactly if it is "bearer" in any case, one space, and a key that parses and has no space in it |
| `ApiKeys.AuthHeaderErrors` | `connect/shared/apikeys.go:86-97` | which error a refused header gives |
| `TurnCreds.ParseOfMinted` | `connect/shared/turncreds.go:43-100` | which minted usernames parse, over all int64 rates and expiries, and what comes back |
| `TurnCreds.VerifyOfMinted` | `connect/shared/turncreds.go:43-63` | a minted pair verifies exactly on parseable rates, with the same subject and second of expiry; minting panics exactly on an invalid subject |
| `TurnCreds.VerifyIff` | `connect/shared/turncreds.go:57-63` | a wrong password is refused as a bad signature; a right one verifies exactly if the username parses |
| `TurnCreds.OtherSecretIff` | `connect/shared/turncreds.go:57-63` | a pair minted under one secret verifies under another exactly if both sign its username alike and its rates parse |
| `TurnCreds.MintIs` | `connect/shared/turncreds.go:43-53` | the minted username in plain words, and its signature |
| `TurnCreds.ParseIff` | `connect/shared/turncreds.go:66-100` | exactly what parses, and to what |
| `TurnCreds.ParseErrors` | `connect/shared/turncreds.go:66-98` | which error comes first |
| `TurnCreds.StunOnlyIff` | `connect/hub/hubsrv.go:343-354` | no credentials exactly without a TURN server or on a plan without TURN |
| `TurnCreds.ExpiredIff` | `connect/shared/turncreds.go:35-38` | a verified credential has expired exactly when its second has passed, except where a 64-bit count of seconds from the year 1 overflows |
| `TurnCreds.ParsedIsMintable` | `connect/shared/turncreds.go:66-100` | whatever parses carries a valid subject and parseable int64 rates |
| `TurnCreds.MintOfParsed` | `connect/shared/turncreds.go:43-100` | minting what was parsed and parsing again changes nothing |
| `TurnCreds.AdvertisedExpiryIsExact` | `connect/hub/hubsrv.go:356-372` | the relay's expiry lies within the last second of the ten minutes, and the advertised one equals it to the millisecond if and only if milliseconds fit 64 bits |
| `Versions.ParseVersion` | `connect/hub/version.go:110-125` | the method computes the parse and its first error |
| `Versions.FillComponents` | `connect/hub/version.go:116-124` | the array is filled with the components, or the loop stops at the first bad one |
| `Versions.Parse` | `connect/hub/version.go:110-125` | no parsed component is negative or beyond int64 |
| `Versions.ParseIff` | `connect/hub/version.go:110-125` | what parses: three dot-separated int64 components, none negative, in front of the first "-" |
| `Versions.ParseErrors` | `connect/hub/version.go:112-121` | the error otherwise: the number of components or the leftmost bad one |
| `Versions.CoreIs` | `connect/hub/version.go:111` | the core ends before the first "-" |
| `Versions.PrecedesIff` | `connect/hub/version.go:99-106` | major first, then minor, then patch |
| `Versions.GateIs` | `connect/hub/version.go:63-90` | no header counts as 0.0.0, a malformed one is refused with its error, others are compared with the floor |
| `Versions.ShedSafeIff` | `connect/hub/hubsrv.go:544-552` | shed-safe exactly with a well-formed version of at least 0.14.0 |
| `Sharding.ShardByFirstCharacter` | `connect/hub/sharding.go:23-32` | shard 1 exactly for a first character in 0-9 and a-c, else shard 2 |
| `Versions.VersionLess` | `connect/hub/version.go:99-106` | the early-return loop decides precedence by the first difference |
| `Versions.PrecedenceIsTotal` | `connect/hub/version.go:99-106` | that order is total: of two versions one precedes the other, unless they are equal |
| `Versions.ParsePrinted` | `connect/hub/version.go:94-125` | parsing a printed triple with any pre-release suffix gives the triple back |
| `Versions.FloorAgreesWithPrecedence` | `connect/hub/version.go:63-75` | a printed version passes a floor exactly when it does not precede it; so for the 0.14.0 shedding floor |
| `Decimal.ParseFormat` | `connect/shared/turncreds.go:48` | parsing a printed int64 gives it back, negative ones included |
| `Decimal.ParseOutOfRange` | `connect/shared/turncreds.go:92` | a number beyond 64 bits is refused |
| `Decimal.ParseIntIff` | `connect/shared/turncreds.go:92` | what parses: an optional sign and at least one digit, within 64 bits |
| `Decimal.FormatIs` | `connect/shared/turncreds.go:48` | decimal notation |
| `Text.JoinSplit` | `connect/shared/turncreds.go:67` | joining what was split gives the text back |
| `Text.SplitJoin` | `connect/shared/turncreds.go:67` | splitting joined separator-free parts gives the parts back |

## Left out

- HubServer.UpdateRoster: runs its steps without interleaving and takes the awaited answer as an argument; other database operations in between are covered by `HubServer.AcceptedIsNext`, which speaks of any run of the backend, and the origin of the answer by `HubServer.SignatureIsTheReply`, which speaks of any run of the router.
- RoutingObjects.ConnectivityGroup.Connect: runs both halves with nothing in between; goroutines that act in between use `CancelPrevious` and `InstallNext`, as `Routing` does.
- BackendObjects.Backend.CompleteNodeRegistration: leaves out the rate limiter, the activity log and the attestation token.
- BackendObjects.Backend.ListNodes: lists node numbers only, not names, metadata and last-seen times.
- BackendObjects.Backend.DeleteConnectivityGroup: its statements run without interruption; interleavings are in `BackendTheorems.DeletedGroupIsEmptyIff`.
- BackendObjects.Backend.ResetConnectivityGroup: its statements run without interruption; a node registered between the two updates stays live, which `BackendTheorems.ResetGroupIsEmptyIff` covers.
- BackendObjects.Backend.PostRegistrationToken: its check and its insert run without interruption; a group deleted in between gets a token row, which `BackendTheorems.DeletedIsFrozen` shows is never redeemed.
- BackendObjects.Backend.DeleteNode: its three statements run without interruption; the not-found exit for a node deleted in between does not occur.
- RoutingTheorems.RequestIdsUnique: holds for the first 2^64 calls of a group, after which the counter repeats.
- The serving side of a stream (StartServing, the send loop, the shard timer) is a transition system on values: its goroutines interleave at every action, which methods cannot express.
- A roster message that lists one activation object twice: decoding never produces one, and the message definitions are not part of this model.
- UUID parsing: group IDs are taken as canonical; the router keys on the raw header and the backend on the canonical form.
- The rate limiters, metrics, log lines, server-time stamping and activity logging: nothing flows back from them.
- PairNodes and StartConnection: after RouteRequest and Await they only pass on what the router theorems describe.
- JSON shapes, HTTP status mapping, listing endpoints and patchNode beyond its database operation.
- Start-up of the standalone state: ensure-or-create of meta rows and the bootstrap key.
- Random number generation, cryptography, JWT and JWKS handling: arguments or absent.
- Progress: that a reply eventually arrives or a call eventually returns is not stated; the steps say what each next action does.

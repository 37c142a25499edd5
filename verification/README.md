# Verified model of the airfk event, RPC and number code

The project models four parts of the repository and proves what their users rely on.

* **The event feed** (`pkg/event`). A feed broadcasts each value to all subscribed channels while
  other goroutines subscribe, unsubscribe and send. `FeedProtocol` is a step relation over any
  number of goroutines: one-token send lock, mutex, inbox, case list with its active prefix, and
  the removal that is handed to a running send. `FeedImplementation.Feed` is the code itself: an
  array that `delete` shifts and `deactivate` permutes in place, and the loops of `Send`, with the
  readiness of channels chosen by the environment. Both use the round functions of `CaseList`,
  and `FeedTheorems` shows that every interleaved send of the protocol is a run of the loop that the
  code performs, and the other way round. `FeedCalls` says what each call achieves between its call
  and its return, in every interleaving. `ScopeProtocol`, `ScopeTheorems` and `SubscriptionScopes` do
  the same for subscription scopes.
* **JSON-RPC requests and subscriptions** (`pkg/codec/jsonc.go`, `pkg/server`). `Jsonrpc` parses
  requests, batches and positional arguments, `Server` looks requests up and executes them on
  values, and `Calls` goes from the text of a request to its answer. `Connection` is the code that
  works on a connection's notifier and wire, and `NotifierProtocol` runs any number of executing,
  notifying and unsubscribing goroutines against one notifier; `NotifierTheorems` says what is on the
  wire in every run, and `ServedAlone` that the code performs runs of the protocol. The request format is JSON-RPC 2.0; whitespace follows section 2 of RFC 4627.
* **The generated event loop** (`template/subscribe.go.tpl`): `EventLoopProtocol`,
  `EventLoopTheorems`, which tells what subscribers are sent from the steps of a run alone, and
  `EventLoop`.
* **Numbers as words, bytes and hex** (`pkg/common/math/big.go`, `pkg/common/hexutil`,
  `pkg/types/types.go`, `NewID`): `BigMath`, `Hexutil` and `HexData` over the arithmetic of
  `Numbers`, for every word size.

In the protocols a state is a value, `Enabled` says which steps a goroutine can take, `Apply` what a
step does, and a state is reachable when some finite sequence of enabled steps leads to it from the
initial state. A panic of the program is a recorded state, not a missing step. Fields that the
program does not have (case identities, the send order, deliveries) are history and never decide
anything.

Assumptions. Channels carry the feed's element type. Subscription ids are fresh, and a subscription
callback returns the subscription it created. `Exp` is called with distinct objects. JSON decoding
is an oracle: a message comes with the values it decodes to. Writes are ordered by their attempts.

Where the code and its comments differ the code is followed:

* `Exp` overwrites its base although the comment at `pkg/common/math/big.go:195-196` says that it
  does not. `BigMath.Exp` states that the base is unchanged exactly for exponent 0 and for bases 0
  and 1, whatever the word size; `BigMath.BaseLost` is a call that loses it.
* `EncodeBig` prints a sign although `pkg/common/hexutil/hexutil.go:179` says that the sign is
  ignored; `Hexutil.BigRoundTrip` states exactly when printing can be undone.
* `pkg/server/server.go:337` says that a subscription is activated after its id was successfully
  sent; activation also follows a failed write, so the order is stated over write attempts.
* The test `argval.IsNil()` at `pkg/codec/jsonc.go:302` is never true, because `reflect.New` returns
  a non-nil pointer; a JSON null for a required argument is accepted unless the type's own decoder
  refuses it. `Jsonrpc.RequiredNullAccepted` states exactly when this makes a difference and what
  the argument then is, `Jsonrpc.NullForString` is an instance.
* A subscribe request whose wanted subscription is named like an unsubscribe request is executed as
  an unsubscribe (`pkg/server/server.go:446-455`); see `Server.UnsubscribesExactly` and the instance
  `Server.SubscribeThatUnsubscribes`.
* An empty batch is answered with an empty array, where section 6 of the JSON-RPC 2.0 specification
  asks for a single error object. `Server.EmptyAnswer` states that this is the only batch message so
  answered, and `Connection.ServeBatch` that this answer is what is written.

## Model

| member | source | states |
|---|---|---|
| CaseList.FindsFirst | pkg/event/feed.go:213-220 | the search gives the first case carrying a channel, or -1 exactly when none does |
| CaseList.DeactivateSplits | pkg/event/feed.go:228-232 | swapping a case behind the boundary moves exactly that case from the active ones to those behind |
| CaseList.DeactivateKeepsShape | pkg/event/feed.go:228-232 | slot 0 stays the removal case and the others stay subscriber cases |
| CaseList.DeleteSplits | pkg/event/feed.go:223-225 | deleting on either side of the boundary removes that case from its side only |
| CaseList.LoopKeepsAccount | pkg/event/feed.go:151-182 | every round of Send keeps the prefix: what lies behind it is exactly the served and unremoved cases, and active, served and lost cases are the ones at the start |
| CaseList.LoopRankFalls | pkg/event/feed.go:154-182 | prefix length plus list length falls in every select round that serves or removes, and the distance to the boundary in the fast path, so Send needs finitely many rounds |
| CaseList.FastPathTriesOnce | pkg/event/feed.go:159-165 | the index that stays after a served case makes the fast path try each active case exactly once |
| CaseList.RunKeepsAccount | pkg/event/feed.go:154-182 | the account of cases holds over every run of the loop |
| CaseList.SendAccount | pkg/event/feed.go:127-190 | a finished send served or lost each starting case exactly once, leaves the served and unremoved ones, and returns how many were served |
| FeedImplementation.Feed.constructor | pkg/event/feed.go:61-66 | a new feed holds the removal case alone and its token is free |
| FeedImplementation.Feed.FindCase | pkg/event/feed.go:213-220 | the loop returns the first index carrying the channel, or -1 |
| FeedImplementation.Feed.DeleteCase | pkg/event/feed.go:223-225 | shifting in the array leaves the list without that case |
| FeedImplementation.Feed.DeactivateCase | pkg/event/feed.go:228-232 | the swap in the array exchanges the case with the last active one |
| FeedImplementation.Feed.TakeInbox | pkg/event/feed.go:136-138 | the inbox is appended to the list, in place or in a new array, and is empty afterwards |
| FeedImplementation.Feed.Subscribe | pkg/event/feed.go:73-93 | one new case goes to the end of the inbox and the list is untouched |
| FeedImplementation.Feed.Remove | pkg/event/feed.go:104-125 | exactly one case of the channel goes, from the inbox if it has one and else from the list; with the token away it waits, and without a case it panics with the token taken |
| FeedImplementation.Feed.FastPath | pkg/event/feed.go:159-168 | trying without blocking ends with no active case left or in the select, with list, prefix and count as the rounds say |
| FeedImplementation.Feed.SelectRound | pkg/event/feed.go:170-181 | a select round serves one case or deletes one, on either side of the boundary, and lowers prefix plus list length |
| FeedImplementation.Feed.Serve | pkg/event/feed.go:160-163 | exactly the chosen case gets the value and leaves the prefix |
| FeedImplementation.Feed.ReceiveRemoval | pkg/event/feed.go:171-177 | the first case of the received channel is deleted on either side of the boundary, and the prefix shrinks exactly when it was active |
| FeedImplementation.Feed.AllRounds | pkg/event/feed.go:154-182 | the loop ends with no active case, and its account of served, lost and remaining cases closes |
| FeedImplementation.Feed.Send | pkg/event/feed.go:129-190 | for every behaviour of the environment the list and result are those of its rounds: each starting case is served once or removed before, the result counts the deliveries, and the token is back |
| FeedProtocol.InvStep | pkg/event/feed.go:73-204 | every step of every goroutine keeps the feed's invariant |
| FeedProtocol.InvReachable | pkg/event/feed.go:73-204 | the invariant holds in every reachable state |
| FeedProtocol.TokenGuards | pkg/event/feed.go:35-38 | the case list and the send order change only in steps of the token's holder |
| FeedProtocol.DeletableCase | pkg/event/feed.go:117-125 | a removal past the inbox check always finds a case of its channel in the list |
| FeedProtocol.NeverPanics | pkg/event/feed.go:122-173 | neither deletion uses index -1 and no error channel is closed twice |
| FeedTheorems.DeliveryIsASegment | pkg/event/feed.go:104-190 | in every interleaving the values delivered to a subscription are one contiguous stretch of the send order, each once and in order |
| FeedTheorems.SubscribersAgree | pkg/event/feed.go:104-190 | two subscriptions have the same value at the same distance from their first sends for every send they share |
| FeedTheorems.UpToDateAtRest | pkg/event/feed.go:184-188 | with the token free every listed subscription has received everything since its first send |
| FeedTheorems.SendResult | pkg/event/feed.go:127-190 | when Send returns, in any interleaving, its account closes and every listed case has the value as its last |
| FeedTheorems.CasesMatchSubscriptions | pkg/event/feed.go:104-173 | per channel, cases in inbox and list equal the undeleted subscriptions, and the list alone covers the removals past the inbox check |
| FeedTheorems.TokenConserved | pkg/event/feed.go:133-188 | the token is in the channel or with exactly one send or removal |
| FeedTheorems.NothingAfterUnsubscribe | pkg/event/feed.go:199-204 | once every Unsubscribe of a channel has returned nothing is delivered to it, even if a send still has to delete its case |
| FeedTheorems.SendIsALoopRun | pkg/event/feed.go:154-182 | however other goroutines interleave, a protocol send is a run of the loop of the code |
| FeedTheorems.LoopRunIsASend | pkg/event/feed.go:154-182 | and every run of that loop, whatever the channels and the select decide, is what some protocol send does |
| FeedTheorems.SomeStepHelps | pkg/event/feed.go:104-188 | whenever a removal waits, some step of the feed itself is enabled and brings it closer: send lock and mutex form no wait cycle |
| FeedTheorems.UnsubscribeCanReturn | pkg/event/feed.go:104-125 | from any point of Unsubscribe feed steps alone lead to its return with the error channel closed, without any subscriber receiving |
| FeedTheorems.SendCanReturn | pkg/event/feed.go:129-190 | from any point of Send, also while it waits for the token, feed steps and receptions lead to its return, without any new call |
| FeedCalls.SendReachesSubscribed | pkg/event/feed.go:133-188 | when Send is about to return, every case in list or inbox that was subscribed before it took the token has its value as the last one |
| FeedCalls.SendDelivers | pkg/event/feed.go:129-190 | from the call of Send(v) to its return, in any interleaving: every case subscribed before the call and still in the feed has v as its last value |
| FeedCalls.LiveIsListed | pkg/event/feed.go:73-125 | while nobody unsubscribes a channel each of its subscriptions has its own case in the feed |
| FeedCalls.SubscriberReceives | pkg/event/feed.go:129-190 | a subscription that was there when Send(v) was called, and whose channel nobody unsubscribes, has v as its last value when it returns |
| FeedCalls.SubscribeAdds | pkg/event/feed.go:73-93 | Subscribe from call to return adds one live subscription of its channel and one case for it at the end of the inbox, and nothing else |
| FeedCalls.SubscribeCanReturn | pkg/event/feed.go:73-93 | from any point of Subscribe feed steps alone lead to its return |
| FeedCalls.UnsubscribeCloses | pkg/event/feed.go:104-125 | when Unsubscribe has returned the error channel is closed and the removal is done, or is what the running send does next |
| ScopeProtocol.InvStep | pkg/event/subscription.go:44-86 | every step of Track, Close and wrapper Unsubscribe keeps the scope's invariant |
| ScopeProtocol.ClosedRemovesAll | pkg/event/subscription.go:58-71 | after Close every subscription ever tracked has been removed from its feed exactly once |
| ScopeProtocol.OpenScopeHoldsLive | pkg/event/subscription.go:44-56 | before Close every tracked subscription still in its feed is in the scope |
| ScopeProtocol.RemovedAtMostOnce | pkg/event/feed.go:199-204 | no interleaving removes a subscription twice |
| ScopeProtocol.ClosedForGood | pkg/event/subscription.go:47-49 | after Close nothing is ever tracked again |
| ScopeProtocol.CloseCanFinish | pkg/event/subscription.go:60-71 | a Close in progress can always run to its end |
| ScopeProtocol.CountBounds | pkg/event/subscription.go:75-79 | the count is at least the tracked subscriptions still in their feeds until Close, nothing after it, and never more than was tracked |
| ScopeTheorems.UnsubscribeRemoves | pkg/event/feed.go:199-204 | when Unsubscribe has returned the subscription was removed exactly once, whoever did it |
| ScopeTheorems.WrapperLeaves | pkg/event/subscription.go:81-86 | when a wrapper's Unsubscribe has returned its subscription was removed exactly once and the wrapper has left the scope |
| ScopeTheorems.CloseRemovesAll | pkg/event/subscription.go:58-71 | when Close has returned the scope is closed and empty, and what was tracked at the call was removed exactly once |
| ScopeTheorems.TrackFiles | pkg/event/subscription.go:44-56 | an open scope files the new wrapper and keeps its subscription over every continuation, a closed one does not change |
| SubscriptionScopes.FeedSub.Unsubscribe | pkg/event/feed.go:199-204 | only the first call removes |
| SubscriptionScopes.SubscriptionScope.Track | pkg/event/subscription.go:44-56 | a closed scope returns nothing and stays as it is, an open one adds one new wrapper |
| SubscriptionScopes.SubscriptionScope.Close | pkg/event/subscription.go:60-71 | every tracked subscription is unsubscribed once, also when two wrappers share it, and a second Close does nothing |
| SubscriptionScopes.ScopeSub.Unsubscribe | pkg/event/subscription.go:81-86 | the subscription is unsubscribed and the wrapper leaves its scope |
| Jsonrpc.SplitJoins | pkg/codec/jsonc.go:205-208 | splitting a method name loses nothing and the parts contain no separator |
| Jsonrpc.IsBatch | pkg/codec/jsonc.go:125-134 | true exactly when the first character that is not whitespace is an opening bracket |
| Jsonrpc.ParseBatchRequest | pkg/codec/jsonc.go:220-271 | the loop gives the element results in order or the first rejection |
| Jsonrpc.BatchKeepsOrder | pkg/codec/jsonc.go:226-270 | an accepted batch yields one request per element, in order and with its id |
| Jsonrpc.BatchAccepted | pkg/codec/jsonc.go:226-270 | a batch is accepted exactly when each element is |
| Jsonrpc.BatchAgreesWithSingle | pkg/codec/jsonc.go:172-271 | a request is read the same alone and in a batch, except that an unknown name rejects it only when alone |
| Jsonrpc.ParsePositionalArguments | pkg/codec/jsonc.go:286-319 | the two loops compute the arguments or refuse |
| Jsonrpc.SuppliedInOrder | pkg/codec/jsonc.go:292-306 | the supplied values are the decoded elements in order, and exist exactly when all decode and there are not too many |
| Jsonrpc.ArgumentsFillTypes | pkg/codec/jsonc.go:283-319 | success means one value per type, supplied ones first, zero values only at pointers; with the exact condition for success |
| Jsonrpc.RequiredNullAccepted | pkg/codec/jsonc.go:298-305 | the result differs from what the test for missing arguments means exactly for params that fit and hold a null for a required argument, which then is the zero value of its type |
| Jsonrpc.NullForString | pkg/codec/jsonc.go:298-305 | a null for one required string is accepted as the empty string |
| Calls.OrdinaryRead | pkg/codec/jsonc.go:172-270 | service_name is read as that name of that service, with its params, alone and in a batch |
| Calls.SubscribeRead | pkg/codec/jsonc.go:182-198 | service_subscribe is read as a subscription of the service named by the first param, or refused with -32600 |
| Calls.UnsubscribeRead | pkg/codec/jsonc.go:200-203 | an unsubscribe request keeps its params, whatever its service |
| Calls.Unreadable | pkg/codec/jsonc.go:155-208 | a bad message or id is refused with -32700, a name without exactly two parts with -32601, in a batch for its element only |
| Server.ReadRequest | pkg/server/server.go:428-496 | every request of a batch is looked up on its own and keeps its place |
| Server.SubscribeArity | pkg/server/server.go:462-473 | a looked-up subscription request has exactly as many arguments as its callback takes |
| Server.UnsubscribesExactly | pkg/server/server.go:446-455 | which requests are executed as unsubscribe |
| Server.SubscribeThatUnsubscribes | pkg/server/server.go:446-455 | a subscribe request that ends an active subscription and is answered by its confirmation |
| Calls.OrdinaryCall | pkg/server/server.go:346-375 | a registered method is called with exactly the arguments its params decode to, or refused with -32602 exactly when they do not fit; it is answered by what it returns, or with -32000 exactly when it fails |
| Calls.UnknownCall | pkg/server/server.go:457-492 | a call of an unknown service or method calls nothing and is answered with -32601 |
| Calls.SubscribeCall | pkg/server/server.go:295-344 | argument i of a subscription callback is the decoded param i+1; the created id is answered and set to be activated under its service, any failure is answered with -32000 |
| Calls.UnknownSubscription | pkg/server/server.go:462-476 | an unknown subscription calls nothing and is answered with -32601 |
| Calls.UnsubscribeCall | pkg/server/server.go:314-329 | an unsubscribe ends exactly the active subscription that its only param names, and changes nothing otherwise, with the exact error codes |
| Calls.BatchRefused | pkg/codec/jsonc.go:220-251 | a batch with an unreadable element is answered by one error with a null id and the code of the first such element, and nothing is activated |
| Server.HandleAnswers | pkg/server/server.go:309-375 | the response carries the request's id, a subscription is activated exactly when its id is answered, and every called callback gets one argument per parameter |
| Server.ResponsesInOrder | pkg/server/server.go:400-412 | the i-th response has the i-th request's id |
| Server.ActivationsAnnounced | pkg/server/server.go:400-423 | only subscriptions whose id is in a response are activated |
| Server.ActivationsComplete | pkg/server/server.go:400-423 | every subscription whose id is in a response is activated under its request's namespace |
| Server.AcceptedBatchIsHandled | pkg/server/server.go:400-496 | from parsing to the responses: n requests, n responses, ids in order, and the activations are those of the ids among them |
| Server.EmptyAnswer | pkg/server/server.go:209-259 | the answer to a batch message is an empty array exactly for the empty array; every other answer is an error or holds a response |
| Connection.Notifier.CreateSubscription | pkg/server/subscription.go:85-91 | an unused id is inactive afterwards and every other id keeps its stage |
| Connection.Notifier.Notify | pkg/server/subscription.go:95-108 | written exactly when active, and a failed write closes the connection |
| Connection.Notifier.Unsubscribe | pkg/server/subscription.go:117-126 | succeeds exactly for an active id, which ends and has its error channel closed; every other id keeps its stage |
| Connection.Notifier.Activate | pkg/server/subscription.go:132-140 | an inactive subscription becomes active in its namespace, others stay |
| Connection.Notifier.Execute | pkg/server/server.go:309-375 | the branches of handle compute the response, activation and notifier change |
| Connection.Notifier.RunCallbacks | pkg/server/server.go:419-422 | all activations run in order |
| Connection.Notifier.Exec | pkg/server/server.go:378-396 | the response is written before the activation, which also follows a failed write |
| Connection.Notifier.ExecBatch | pkg/server/server.go:400-423 | one write with all responses, then all activations |
| Connection.Notifier.ServeBatch | pkg/server/server.go:209-259 | a batch message is answered by one write of its answer, an error when it is rejected, followed by the activations |
| ServedAlone.CodeIsARun | pkg/server/server.go:378-423 | what the code writes and leaves behind for a request or batch is what a goroutine of the protocol does when it serves it alone |
| ServedAlone.ActivatesExactly | pkg/server/subscription.go:132-140 | activating makes exactly the inactive subscriptions among those announced active and leaves every other one as it is |
| NotifierProtocol.InvStep | pkg/server/subscription.go:85-140 | every step of executing, notifying and unsubscribing goroutines keeps the notifier's invariant |
| NotifierProtocol.NotificationsInOrder | pkg/server/subscription.go:93-140 | in every run a notification is written after the response with its id and before the response to its unsubscribe |
| NotifierProtocol.StagesOneWay | pkg/server/subscription.go:85-140 | an id moves only from unused to inactive to active to ended, and its error channel is closed at most once |
| NotifierProtocol.OneAnswerForAll | pkg/server/server.go:400-423 | a goroutine's single write answers all its requests in order and announces exactly what it will activate |
| NotifierProtocol.AcceptedBatchIsAnswered | pkg/server/server.go:400-496 | in every interleaving an accepted batch of n requests is answered by one message of n responses with the ids of its elements in order |
| NotifierProtocol.EmptyBatchOnWire | pkg/server/server.go:400-417 | in every run the answer to an accepted batch is an empty array exactly for the empty batch |
| NotifierProtocol.AnnouncedIsActivated | pkg/server/server.go:387-395 | in every run each announced subscription was activated, or a goroutine is about to do it |
| NotifierProtocol.WriterCanProceed | pkg/server/subscription.go:93-140 | a goroutine about to unsubscribe, create or activate can always do it: the readers leave by their own steps while it stays in place, and then its step is enabled |
| NotifierTheorems.NotificationsAreNamed | pkg/server/subscription.go:93-108 | in every run a notification is in the namespace of the service whose request was answered by its id before |
| NotifierTheorems.NotificationsWereCalled | pkg/server/subscription.go:93-108 | every notification carries the data of a call of Notify for its subscription |
| NotifierTheorems.NotifyWrites | pkg/server/subscription.go:99-102 | a Notify that looks up an active subscription has written its data in the subscription's namespace when it returns |
| NotifierTheorems.NotifyCall | pkg/server/subscription.go:95-108 | every Notify that returns has looked its subscription up on the way, and has written when that was active then |
| NotifierTheorems.NotifyWritesOnce | pkg/server/subscription.go:95-108 | in every run data is written for a subscription at most as often as Notify was called with it, less the calls still under way |
| NotifierTheorems.DownAfterFailure | pkg/server/subscription.go:101-104 | the connection goes down exactly when a write fails |
| NotifierTheorems.UnsubscribeStep | pkg/server/server.go:314-329 | in every run an unsubscribe confirms and ends an active subscription, and any other is an error that changes nothing |
| NotifierTheorems.SubscribeStep | pkg/server/server.go:331-344 | in every run a created subscription is answered by its id, inactive, and activated under its service only after the answer |
| NotifierTheorems.OrdinaryCallInRun | pkg/server/server.go:309-423 | from serving to the wire, in every interleaving, an ordinary call is answered in its place by what its callback did in that run, or refused when its params do not fit |
| EventLoopProtocol.InvStep | template/subscribe.go.tpl:145-234 | every step of the loop and its clients keeps the loop's invariant |
| EventLoopProtocol.SentBetweenInstallAndUninstall | template/subscribe.go.tpl:189-225 | what is sent for a subscription is exactly the events taken between install and uninstall, in order and once, at most one behind, also when subscriptions share a channel |
| EventLoopProtocol.OwnChannel | template/subscribe.go.tpl:174-187 | on a channel of its own that is everything sent on the channel |
| EventLoopProtocol.NothingAfterUninstall | template/subscribe.go.tpl:160-163 | nothing is sent for a subscription after its uninstall, over any continuation |
| EventLoopProtocol.BlockedLoopHasReceiver | template/subscribe.go.tpl:149-157 | a loop blocked on a channel has room or a receiver while a subscription of that channel is in Unsubscribe |
| EventLoopProtocol.UnsubscribeCanFinish | template/subscribe.go.tpl:145-165 | while the loop runs an Unsubscribe can complete although no client receives from its channel any more |
| EventLoopTheorems.TakenInOrder | template/subscribe.go.tpl:206-212 | published events are those taken by the loop and those still queued, in order |
| EventLoopTheorems.SentWhileInstalled | template/subscribe.go.tpl:189-218 | an installed subscription is sent the events published from the first not taken before its install on, once each and in order, at most one behind the loop |
| EventLoopTheorems.SentUntilUninstalled | template/subscribe.go.tpl:189-225 | an uninstalled subscription was sent exactly the events taken between its install and its uninstall |
| EventLoopTheorems.SubscribedToChannel | template/subscribe.go.tpl:174-187 | a subscription keeps the channel it was made with |
| EventLoop.EventMsg.Install | template/subscribe.go.tpl:214-218 | the subscription is filed under its type and id, and nothing else moves |
| EventLoop.EventMsg.Uninstall | template/subscribe.go.tpl:220-224 | exactly that subscription leaves the index and its error channel is closed |
| EventLoop.EventMsg.Broadcast | template/subscribe.go.tpl:189-204 | the event is sent once for every installed results subscription |
| BigMath.BitsValue | pkg/common/math/big.go:135-148 | the words of a number determine it |
| BigMath.WordsFit | pkg/common/math/big.go:135-148 | every word of a number fits the word size |
| BigMath.TopWordNotZero | pkg/common/math/big.go:135-148 | a number has no leading zero word |
| BigMath.U256 | pkg/common/math/big.go:176-178 | the argument is reduced modulo 2^256 in place |
| BigMath.SignedRoundTrip | pkg/common/math/big.go:187-192 | S256 and truncation undo each other on 256-bit and on signed numbers |
| BigMath.SquareStep | pkg/common/math/big.go:203-208 | one bit of the exponent: result times base to the rest stays congruent |
| BigMath.Exp | pkg/common/math/big.go:195-212 | base to the exponent modulo 2^256 for every word size, what is left in the base, and that it is unchanged exactly for exponent 0 and for bases 0 and 1 |
| BigMath.BaseKept | pkg/common/math/big.go:195-207 | the value left in the base equals the base exactly for exponent 0 and for bases 0 and 1 |
| BigMath.FixedBySquaring | pkg/common/math/big.go:207 | squaring modulo 2^256 any positive number of times gives a number back only for 0 and 1 |
| BigMath.BaseLost | pkg/common/math/big.go:195-207 | base 2 with exponent 1 and 64-bit words ends as 0 |
| BigMath.ExpWord | pkg/common/math/big.go:203-209 | one word's bits keep the congruence |
| BigMath.ByteOfBits | pkg/common/math/big.go:140-148 | reading bytes word by word reads the bytes of the number, for any word size |
| BigMath.BigEndianByteAt | pkg/common/math/big.go:137-149 | byte n of the absolute value |
| BigMath.Byte | pkg/common/math/big.go:155-160 | byte n of the padded big-endian form, zero past it |
| BigMath.WriteWord | pkg/common/math/big.go:167-171 | the inner loop writes one word's bytes downwards as far as there is room |
| BigMath.ReadBits | pkg/common/math/big.go:164-173 | the big-endian bytes go to the end of the buffer, what does not belong to the words is kept |
| BigMath.ReadBitsIntoZeros | pkg/common/math/big.go:131-132 | a zeroed buffer of p bytes gets the absolute value modulo 256^p |
| BigMath.ByteLenOfBitLen | pkg/common/math/big.go:126 | bytes needed are the bit length over 8, rounded up |
| BigMath.PaddedBigBytes | pkg/common/math/big.go:125-132 | the value in as many bytes as asked for or needed |
| BigMath.ViewsAgree | pkg/common/math/big.go:123-173 | the byte views agree whatever the word sizes |
| BigMath.FirstBitSet | pkg/common/math/big.go:114-121 | the number is that power of two times an odd number |
| Hexutil.CanonicalUnique | pkg/common/hexutil/hexutil.go:192-207 | digits without leading zeros are determined by their value, up to case |
| Hexutil.ParseWords | pkg/common/hexutil/hexutil.go:147-164 | the chunked loop gives the digits' value for every word size |
| Hexutil.FillWord | pkg/common/hexutil/hexutil.go:154-161 | filling a word never overflows it |
| Hexutil.ReadChunk | pkg/common/hexutil/hexutil.go:147-163 | one round of the loop reads the next digits from the right into its word, or stops at a bad digit |
| Hexutil.DecodeBig | pkg/common/hexutil/hexutil.go:139-166 | value or error independent of the word size |
| Hexutil.Big.UnmarshalText | pkg/common/hexutil/json.go:156-185 | agrees with DecodeBig on non-empty text, value or error, and changes nothing on error |
| Hexutil.BigRoundTrip | pkg/common/hexutil/hexutil.go:139-186 | printing is undone by reading exactly for 0 to 256 bits, and what happens outside |
| Hexutil.BigCanonical | pkg/common/hexutil/hexutil.go:139-186 | an accepted text is printed as itself in lower case |
| Hexutil.BigReadsExactly | pkg/common/hexutil/hexutil.go:139-222 | a text is read as x exactly when x has at most 256 bits and the text in lower case is what is printed for x |
| Hexutil.BigRefusals | pkg/common/hexutil/hexutil.go:139-207 | which error every refused text gets |
| Hexutil.CapitalsAreRead | pkg/common/hexutil/hexutil.go:188-222 | 0XFF is 255 |
| Hexutil.ParseUintValue | pkg/common/hexutil/hexutil.go:92-102 | reading from the left accepts exactly the digits below 2^64 |
| Hexutil.Uint64.UnmarshalText | pkg/common/hexutil/json.go:218-237 | value or error as specified, without wrapping, and nothing changes on error |
| Hexutil.Uint64DecodersAgree | pkg/common/hexutil/json.go:218-237 | both 64-bit decoders accept the same non-empty texts with the same value |
| Hexutil.SixteenDigits | pkg/common/hexutil/json.go:223-225 | for canonical digits the 16-digit limit is the 2^64 bound |
| Hexutil.Uint64RoundTrip | pkg/common/hexutil/hexutil.go:92-119 | a printed uint64 is read back |
| Hexutil.Uint64ReadsExactly | pkg/common/hexutil/json.go:218-237 | both decoders read a non-empty text as u exactly when u is below 2^64 and the text in lower case is what is printed for u |
| Hexutil.Uint64Refusals | pkg/common/hexutil/json.go:218-237 | which error every refused text gets |
| HexData.DataRoundTrip | pkg/common/hexutil/hexutil.go:60-89 | bytes survive Encode and Decode |
| HexData.DataCanonical | pkg/common/hexutil/hexutil.go:60-89 | accepted data is printed as itself in lower case |
| HexData.DataReadsExactly | pkg/common/hexutil/hexutil.go:60-89 | a text is read as bytes exactly when in lower case it is what is printed for them |
| HexData.DataRefusals | pkg/common/hexutil/hexutil.go:60-72 | which error refused data gets; a bad digit comes before an odd length |
| HexData.UnmarshalFixed | pkg/common/hexutil/json.go:95-132 | all or nothing: the decoded bytes, or an error and an unchanged buffer |
| HexData.FixedReadsExactly | pkg/common/hexutil/json.go:95-132 | a text is read as bytes of the wanted size exactly when in lower case it is what is printed for them, without the prefix only where that is optional or the text is empty |
| HexData.FixedRefusals | pkg/common/hexutil/json.go:95-132 | which error a refused text gets; an odd length comes before a bad digit |
| HexData.SetBytes | pkg/types/types.go:115-121 | the last bytes are kept, and a shorter input leaves the first bytes alone |
| HexData.BytesToHash | pkg/types/types.go:49-53 | the value modulo 2^256 |
| HexData.BigToHash | pkg/types/types.go:57-75 | the hash of a number reads back as its absolute value modulo 2^256 |
| HexData.FixedRoundTrip | pkg/types/types.go:99-143 | prefixed and plain text are read back, and plain digits never look prefixed |
| HexData.HashTextRoundTrip | pkg/types/types.go:99-143 | a hash survives either text form |
| HexData.TrimKeepsValue | pkg/server/subscription.go:155-160 | trimming zeros keeps the value and makes it canonical |
| HexData.IdIsQuantity | pkg/server/subscription.go:155-162 | an id is the printed quantity of its bytes and reads back to it |
| HexData.IdsDiffer | pkg/server/subscription.go:144-163 | different bytes give different ids |
| HexData.IdsTellDrawsApart | pkg/server/subscription.go:144-163 | two ids are equal exactly when the first two draws agree modulo 2^56 and the third modulo 2^16 |
| HexData.NewID | pkg/server/subscription.go:144-163 | the text is the canonical quantity of the 16 drawn bytes, seven from each draw, and reads back to their number |

## Left out

- Panics on mismatched element types and on receive-only channels in the feed, and reflection.
- The values stored in and cleared from the select cases (`pkg/event/feed.go:147-149, 184-187`): the value of a send is kept with the sender.
- FeedImplementation.Feed.Remove: a removal that has to wait for a running send is reported as waiting; that send receives it in ReceiveRemoval, and waking up when the token comes back is in the protocol only.
- Fairness of the Go scheduler: progress is stated as enabled steps and as runs that complete.
- JSON encoding, sockets, HTTP, WebSocket, CORS, and the error texts; errors carry their codes only.
- `Server.Stop`, shutdown answers and the reading loop of `serveRequest` around one message.
- `suitableCallbacks` and type inspection: a registry that keeps subscription callbacks apart is assumed.
- Unsubscribing from the event loop after the loop has exited, when nobody takes the request.
- `HexToHash`, which does not decode hex, and the inverse claims for `common.ToHex` and `FromHex` on empty input.
- Uint.UnmarshalText, and the kinds of error of the two 64-bit decoders on over-long malformed text, which may differ.
- `ParseBig256`, `HexOrDecimal256`, `BigMax`, `BigMin` and `BigPow`: thin wrappers of the standard library.
- Registry clients, LevelDB, code generation, files and versions: plumbing.

# Verified model of slim-a2a-go

`slim-a2a-go` carries A2A calls over SLIM RPC. A `Handler` serves an `a2asrv.RequestHandler`; a `Transport`
calls a remote one; between them are hand-written method adapters that replace the generated ones, a response
sink, and a channel. This project models that path in Dafny and proves what a caller may rely on. Check it with
`dafny verify dfyconfig.toml`.

## How the model is built

| file | what it models |
|---|---|
| `Outcomes.dfy` | results, RPC errors, `toRPCError` |
| `Contexts.dfy` | context chains, the verified caller, `handlerContext`, `withoutSessionKeys` on a mutable map |
| `Sinks.dfy` | the response sink as an object with its trace of calls, and streaming bodies |
| `Adapters.dfy` | the hand-written and the generated `Handle` methods, unary and streaming |
| `ServerLoop.dfy` | the handlers' range-over-func loop over an event iterator |
| `ClientLoop.dfy` | the Transport's `Recv` and `yield` loop and its consumer |
| `Relays.dfy` | both loops with adapter, sink and channel between them, once and in chains of agents |
| `RelayMachine.dfy` | server and client as two step machines, every interleaving, producers that may never end |
| `ChainMachine.dfy` | a chain of such machines, all agents running at the same time |
| `ChainRuns.dfy` | whole runs of it: each hop as a machine of its own, chains that finish, agreement with the sequential chain |
| `UnaryCalls.dfy` | unary calls end to end, over channels that may fail, and in chains of agents |
| `VersionZero.dfy` | the three methods of v0 that do not pass their request on |
| `Registration.dfy` | `caller.Server` between the generated Register functions and the SLIM server |
| `Lists.dfy`, `SlimConfig.dfy` | the example's option parsing and configuration builders |

What cannot be seen in the repository is universally quantified, so the theorems hold for every behaviour of it:

- Converters and protobuf functions are arbitrary partial functions. Round-trip laws, and the rule that protobuf
  errors are never `RpcError`s (`PlainErrors`), are preconditions of the theorems that need them.
- A sink answers each call by an arbitrary function of all calls so far; a consumer decides by an arbitrary
  function of all it was given; a streaming body is an arbitrary strategy that sees the outcomes of its sends.
  A call that returns is described by the number of sends it makes, which is a ghost argument and bounds nothing.
- The channel delivers a prefix of the attempted sends in order and then either breaks or reports the end. A send
  the sink rejected may still have been delivered. In `RelayMachine` the end may be reported at any time.
- A client is never assumed to see a server error. `FailureCanBeSilent` shows that it need not, and
  `ClientErrorExactly` and `DrainedIsCompleteExactly` say what it does learn. The code closes the sink before it
  reports the error, so this is how the code behaves, not only what the model allows.
- A unary call fails with the channel's error or brings back what the adapter returned; which of the two is a
  parameter of each call, and a call that fails may have been served.
- A range-over-func loop is modelled as pulling items; `PushIsPull` proves that an iterator which pushes them into
  the loop and stops when the loop returns gives the same run. The rule of the Go language specification, section
  "For statements with range clause", that `yield` is not called again after it returned false is the precondition
  of `Consumer.Yield`, so every call of it is proved to keep the rule.

Three statements that one might expect are false of the code. Each has its exact condition and an input on which it
fails. README.md lines 15-17 of the repository promise version-agnostic behaviour without these conditions.

- v0's `GetExtendedAgentCard` ignores the caller's request, and the handler gets the empty one, so the call equals
  the local one exactly for the empty request (`AgentCardV0Transparency`, `AgentCardV0Fails`).
- v0's `CancelTask` builds the handler's request from the task ID alone, so the call equals the local one exactly for
  requests that carry nothing else (`CancelTaskV0Transparency`, `CancelTaskV0Fails`).
- v0's `SubscribeToTask` does the same (`TaskSubscriptionV0Transparency`, `TaskSubscriptionV0Fails`).

The request types are declared in the A2A library, which is not part of this model. `TaskRequest.rest` stands for every
field of `CancelTaskRequest` and `SubscribeToTaskRequest` but `ID`; the requests in the repository's own tests set only
`ID`, and it is on those that the two methods are transparent.

Nor does the end of one side say by itself what the other has seen: a client whose stream ended cleanly may lack
events, and a handler's loop may return an error although none is missing. `DrainedIsCompleteExactly` gives the exact
condition, and `FailureCanBeSilent` and `RejectedCanBeComplete` the two cases.

## Model

| member | source | states |
|---|---|---|
| Relays.RelaySafety | a2aslimrpc/v1/client.go:83-116 | For every iterator, converter, sink, channel and consumer, what the Transport yields is an in-order, duplicate-free prefix of the producer's events, each encoded and decoded, with at most one error and that one last |
| Relays.RelayDeliversAll | a2aslimrpc/v1/handler.go:76-98 | A draining consumer gets every event and no error if and only if every event converts both ways, the sink refuses none of the sends before the last, and the channel delivers them all and does not break |
| Relays.TransportIteratorIsLawful | a2aslimrpc/v1/client.go:86-115 | For every request, stream and consumer the iterator yields only when the consumer asked for more, and nothing after an error, early errors included |
| Relays.PushIsPull | a2aslimrpc/v1/handler.go:85-97 | A handler loop fed by a Transport iterator that it stops early leaves the same trace and error as over the drained iterator, and is yielded exactly the items it takes |
| Relays.ChainSafety | a2aslimrpc/v0/client.go:170-199 | Over relay agents in a chain of any length, each loop fed by the Transport below it, the consumer still gets an in-order prefix with at most one, last error |
| Relays.ChainIsDrainedChain | a2aslimrpc/v0/handler.go:87-99 | Agents that stop their iterators early lose nothing, anywhere in a chain |
| Relays.ChainDeliversAll | a2aslimrpc/v0/handler.go:155-167 | A draining consumer at the end of a chain gets every event and no error if and only if each link carries the events as the links before it left them and the last channel does not break; a break behind the last event of an inner link goes unnoticed |
| Relays.StoppingGivesPrefix | a2aslimrpc/v1/client.go:111-113 | A consumer that stops was given a prefix of what a draining one is given |
| Relays.StreamingTransparency | a2aslimrpc/v1/client.go:83-117 | A whole streaming call, from request conversion to the last yield, relays the iterator the local RequestHandler returns for the request as it arrives; with events that survive conversion the consumer gets an in-order prefix of the local events, and exactly them when nothing fails and it never stops before their end |
| Relays.StreamingTransparentExactly | a2aslimrpc/v1/handler.go:144-166 | Over any link that can carry some event, the streaming call is the local call with the very request that was made, for every handler, if and only if the request arrives unchanged |
| Relays.RefusedRequest | internal/caller/server.go:144-165 | For arbitrary converters and every handler: bytes that do not decode put one SendError on the sink, a message that the method refuses Close and SendError, and nothing is sent; the error has InvalidArgument or Internal, or the code it brought |
| Relays.UnsentRequest | a2aslimrpc/v1/client.go:86-96 | For arbitrary converters: an error of the caller's own side is yielded once, as it is; of a request the server refuses the consumer is told nothing |
| Relays.ClientErrorExactly | a2aslimrpc/v1/handler_test.go:936-942 | A draining client is given an error if and only if the channel breaks or a delivered message does not decode; the server's own failure is not among the causes |
| Relays.FailureCanBeSilent | internal/caller/server.go:154-163 | After any events, an iterator that fails gives every consumer exactly what one that ends there gives it, while the call returns an error on the server |
| RelayMachine.Reachable | internal/caller/server.go:144-165 | The joint invariant of server, sink, channel and client holds after every schedule of their steps |
| RelayMachine.AlwaysAPrefix | a2aslimrpc/v1/client.go:97-114 | At every moment of every interleaving, with producers that may never end, the consumer holds an in-order prefix of events already taken from the producer, and any error is the last item |
| RelayMachine.NothingAfterClose | internal/caller/server.go:154-163 | In every reachable state no send follows Close, and every finished trace has the protocol's shape |
| RelayMachine.InterleavingIsSequential | a2aslimrpc/v0/client.go:86-119 | When both sides are done, trace, result and yields are those of the server running to its end before the client starts |
| RelayMachine.SequentialIsInterleaving | a2aslimrpc/v1/client.go:97-114 | And conversely: for any number of deliveries, with or without a break, some schedule ends with the trace, result and yields of the sequential run |
| RelayMachine.DrainedIsCompleteExactly | a2aslimrpc/v1/client.go:103-105 | In every interleaving a client whose stream ended without an error holds every event of the producer if and only if it was given as many as the server took and the producer is at its end: with a loop that returned nil, if and only if all that was sent arrived; with a loop that returned an error, only if the sink rejected the very last event and the channel delivered it all the same |
| RelayMachine.RejectedCanBeComplete | a2aslimrpc/v1/handler.go:93-95 | That last case happens: a run in which the client has all events and a clean end, and the handler an error |
| RelayMachine.ServerFinishes | a2aslimrpc/v1/handler.go:85-98 | When the loop returns by item n, because the producer ends or the loop fails, the call finishes after n + 3 server steps, whatever client, channel and sink do meanwhile |
| RelayMachine.ClientFinishes | a2aslimrpc/v1/client.go:97-115 | A client keeps up with its server at any time and under every schedule: after as many deliveries as are left it has all messages sent so far, unless it ended before, and the first report or break ends it |
| RelayMachine.EndIsTold | a2aslimrpc/v1/client.go:98-105 | In every reachable state a break is yielded to a client that still receives, and the end of the stream is no error |
| ChainMachine.ChainReachable | a2aslimrpc/v0/client.go:170-199 | Agents of a chain of any length running at the same time: in every reachable state each loop has taken exactly what the Transport below has yielded and runs exactly while that receives, and each hop keeps the invariant of one server and one client |
| ChainMachine.ChainAlwaysAPrefix | a2aslimrpc/v0/handler.go:155-167 | At every moment, with a source that may never end, every agent and the consumer hold an in-order prefix of the events the source has produced, carried over every hop between, and an error only as the last item |
| ChainRuns.HopIsMachine | a2aslimrpc/v0/client.go:170-199 | In every interleaving each agent of a chain is in a reachable state of the two-party machine on what the Transport below has yielded, so that every theorem on that machine holds of every hop |
| ChainRuns.FirstIsMachine | a2aslimrpc/v1/client.go:97-114 | The first agent runs its own part of the schedule on the source; a chain of one hop is the two-party machine, step for step |
| ChainRuns.HopGains | internal/caller/server.go:154-163 | Progress of every hop from any state: so many deliveries at it bring its client so many messages further, a report or break ends it, and once its loop has returned two server steps finish its call |
| ChainRuns.EndedFeedsFinish | a2aslimrpc/v0/handler.go:155-167 | When the Transport below an agent has ended, the agent's loop has returned, and two server steps finish its call |
| ChainRuns.ChainFinishes | a2aslimrpc/v0/handler.go:155-167 | A chain of any length finishes: after any schedule, every schedule that attends to the agents in turn, with anything in between, ends every client and finishes every call; `TurnAttends` shows that there are such schedules |
| ChainRuns.ChainInterleavingIsSequential | a2aslimrpc/v0/client.go:170-199 | When all agents of a chain are done, the consumer was given what the sequential chain gives it over the channels cut where they were, so the theorems on chains in Relays hold of every interleaving |
| ServerLoop.RelayEvents | a2aslimrpc/v1/handler.go:85-97 | The loop's exact result for every producer with which it returns, endless ones included: trace, error and the number of times the producer was resumed; the item that failed is the last one pulled and leaves no other trace |
| ServerLoop.LoopMeetsContract | a2aslimrpc/v0/handler.go:87-99 | With no error the sink holds the encodings of all events in order; with an error at event k exactly those of the first k, and the rejected one if it was the sink that failed |
| ServerLoop.ContractDeterminesLoop | a2aslimrpc/v0/handler.go:155-167 | That contract admits exactly one trace, error and number of pulls |
| ServerLoop.LoopAppend | a2aslimrpc/v1/handler.go:153-165 | Cutting the iterator in two cuts the loop in two; an error in the first part hides the second |
| ServerLoop.LoopIsBody | a2aslimrpc/v1/handler.go:85-98 | The loop is one of the bodies the adapter theorems quantify over |
| ServerLoop.StreamingMethodRun | a2aslimrpc/v1/handler.go:76-98 | The stream adapter around a streaming method returns, and serves the handler's iterator, a request that does not convert being served like an iterator that fails at once |
| ServerLoop.ServerRunSends | internal/caller/server.go:154-163 | Closing and error reporting add no message: those sent are the encodings of the first events |
| ClientLoop.YieldEvents | a2aslimrpc/v1/client.go:97-114 | The loop ends, keeps the yield rule, and its yields, Recv count and ending are the ones of the contract |
| ClientLoop.IterationMeetsContract | a2aslimrpc/v1/client.go:178-195 | Each response received is decoded once and gives one yield; one Recv per yield, and one more when the stream ended; the ending shows in the last of them |
| ClientLoop.ContractDeterminesIteration | a2aslimrpc/v0/client.go:100-117 | That contract admits exactly one sequence of yields, Recv count and ending |
| ClientLoop.Stream | a2aslimrpc/v1/client.go:86-96 | The whole iterator, with the two early errors yielded once each; its laws are TransportIteratorIsLawful and StreamingTransparency |
| Sinks.RunBody | internal/caller/server.go:154 | A body run on a live sink leaves the trace and error of its strategy |
| Sinks.RunOnlySends | internal/caller/server.go:154 | A body adds exactly its sends to the trace and changes nothing before them |
| Adapters.StreamHandle | internal/caller/server.go:144-165 | The trace and error of the hand-written stream adapter; SinkProtocol, StreamErrors and the refinement lemmas say what they are |
| Adapters.GeneratedStreamHandle | a2apb/v1/a2a_slimrpc.pb.go:543-585 | The trace and error of the generated stream handler |
| Adapters.StreamRefinesGenerated | internal/caller/server.go:14-19 | Same trace and same error as the generated handler whenever the body does the same under both contexts |
| Adapters.BlindStreamRefinesGenerated | internal/caller/server.go:14-19 | In particular for every body that reads neither the caller nor session keys, termination included |
| Adapters.SinkProtocol | internal/caller/server.go:144-165 | A trace is one SendError alone for an undecodable request, else the body's sends, one Close, at most one SendError; SendError is issued exactly when Handle returns an error and carries it |
| Adapters.StreamErrors | internal/caller/server.go:97-102 | The error a streaming call returns: InvalidArgument for an undecodable request, else the first of body and close error, unchanged if it is an RpcError and Internal if not |
| Adapters.UnaryRefinesGenerated | a2apb/v1/a2a_slimrpc.pb.go:500-537 | Hand-written and generated unary handlers return the same bytes or the same error |
| Adapters.UnaryErrors | internal/caller/server.go:116-133 | Every error that leaves the unary adapter is an RpcError, classified by where it arose |
| Outcomes.RewrapIsFirstWrap | internal/caller/server.go:97-102 | At any wrapping depth the first adapter decides, and an RpcError is never changed |
| Contexts.LookupFindsInnermost | internal/caller/caller.go:37-40 | A lookup finds a value exactly when it is that of the innermost link with the key, by position, through any number of other links and deadlines |
| Contexts.LayersAreTheChain | internal/caller/caller.go:31-33 | A context is its links in order, so that statements on positions are statements on contexts |
| Contexts.DeadlineIsLeast | a2apb/v1/a2a_slimrpc.pb.go:51-55 | The deadline is the least of the chain, and there is none exactly when no link sets one |
| Contexts.CallerSurvivesWrapping | internal/caller/caller.go:31-40 | What NewContext stores FromContext reads back, through any number of links with other keys and deadlines |
| Contexts.CallerNonInterference | internal/caller/caller.go:53-63 | The caller a handler reads depends on the peer identity alone, and is absent exactly when the subject is missing or empty |
| Contexts.HandlerContextExact | internal/caller/server.go:61-72 | The handler sees the metadata without session keys, the verified caller, and every other value and the deadline unchanged |
| Contexts.SessionKeysAreHidden | internal/caller/server.go:74 | Neither slim-peer-subject nor slim-payload-sig is in the metadata a handler sees, and every other entry is |
| Contexts.HandlerContextSameForBody | internal/caller/server.go:14-19 | The adapters' context differs from the generated stub's only in the caller and the session keys |
| Contexts.WithoutSessionKeys | internal/caller/server.go:76-95 | For every map and iteration order: the map minus the keys, a fresh one exactly when one was present, the input untouched |
| Contexts.WithoutKeysIdempotent | internal/caller/server.go:74-95 | Filtering is idempotent, leaves no session key, and changes a map exactly when it has one |
| Contexts.MetadataOverHops | a2apb/v1/a2a_slimrpc.pb.go:57-61 | Over any number of agents that call on with their handler context, session keys never leave a handler and application keys arrive unchanged |
| UnaryCalls.Transparency | a2aslimrpc/v1/client.go:149-161 | A unary call through Transport and Handler is the local call with the request the handler sees, for every handler, request and peer, or the channel's own error; the handler's errors come back as RpcErrors |
| UnaryCalls.TransparentExactly | a2aslimrpc/v1/handler.go:129-141 | For every handler the remote call is the local call with that very request if and only if the channel does not fail and the conversions keep the request |
| UnaryCalls.CallErrors | internal/caller/server.go:116-133 | For arbitrary converters: the caller's own errors come back as they are, a failing channel's instead of anything on the server, and the server's with InvalidArgument for undecodable bytes and Internal for everything else, unless they bring a code |
| UnaryCalls.MethodErrors | a2aslimrpc/v1/handler.go:129-141 | A message that does not decode never reaches the handler; else the first error of handler and response conversion is returned |
| UnaryCalls.ChainTransparency | internal/caller/server.go:116-133 | Through any number of agents and channels a unary call is the local one at the far end, its error given a code once and never changed again, or, if channels fail, the failure nearest to the caller |
| VersionZero.AgentCardV0Transparency | a2aslimrpc/v0/client.go:265-274 | v0's agent-card call always reaches the handler with the empty request, and is transparent for exactly that one |
| VersionZero.AgentCardV0Fails | a2aslimrpc/v0/handler.go:220-228 | A card request for which the remote call differs from the local one |
| VersionZero.CancelTaskV0Transparency | a2aslimrpc/v0/handler.go:131-143 | v0's CancelTask carries the task ID and is transparent exactly for requests with nothing else in them |
| VersionZero.CancelTaskV0Refuses | a2aslimrpc/v0/handler.go:134-143 | For every name, handler and context: the extraction's error is returned and the handler not called, or it is called with the extracted ID and nothing else |
| VersionZero.CancelTaskV0Fails | a2aslimrpc/v0/handler.go:138 | A cancel request for which the remote call differs from the local one |
| VersionZero.TaskSubscriptionV0Transparency | a2aslimrpc/v0/handler.go:146-168 | v0's SubscribeToTask streams the local events for a request with the task ID and nothing else, and is transparent exactly for such requests |
| VersionZero.TaskSubscriptionV0Refuses | a2aslimrpc/v0/handler.go:151-154 | A name that is not a task's calls no handler and sends nothing, and the call returns the extraction's error with Internal, or as it is when it is an RpcError |
| VersionZero.TaskSubscriptionV0Fails | a2aslimrpc/v0/handler.go:155 | A subscription with an event locally and none over v0 |
| Registration.Server.RegisterUnaryUnary | internal/caller/server.go:34-40 | The adapter of that name and kind is registered, or nothing is and registration panics |
| Registration.Server.RegisterUnaryStream | internal/caller/server.go:43-49 | The same for streaming methods |
| Registration.RegisterService | a2apb/v1/a2a_slimrpc.pb.go:482-494 | Registration runs up to the first method without an adapter of its kind and panics exactly there |
| Registration.OnlyAdapters | internal/caller/server.go:20-26 | For any calls and adapter tables the server holds, under each service, method and kind, the adapter if a call that went through registers it and what it held before otherwise; never a generated handler |
| Registration.OrderDoesNotMatter | README.md:26-27 | Two services may be registered on one server in either order |
| Registration.RegisterWith | a2aslimrpc/v1/handler.go:39-58 | With tables that list exactly the generated methods registration goes through and serves each by its adapter |
| Registration.V0TablesAreComplete | a2aslimrpc/v0/handler.go:40-59 | The v0 tables list exactly the methods of the v0 Register function, by kind |
| Registration.V1TablesAreComplete | a2aslimrpc/v1/handler.go:39-58 | The v1 tables list exactly the methods of the v1 Register function, by kind |
| Registration.DualRegistration | a2apb/v0/a2a_slimrpc.pb.go:482-494 | v0 and v1 on one server, in either order: no panic, one table, each service's methods served by its own package's adapters |
| Lists.SplitList | examples/echo_agent/internal/slimconfig/slimconfig.go:355-366 | The loop returns the trimmed, non-empty parts in order, or nil when there are none |
| Lists.TrimSpaceRemovesSpace | examples/echo_agent/internal/slimconfig/slimconfig.go:358 | Trimming removes space at the ends and nothing else |
| Lists.SpaceCharacters | examples/echo_agent/internal/slimconfig/slimconfig.go:358 | Which characters are space: six ASCII ones, tab and newline among them, and the nineteen of Unicode beyond ASCII |
| Lists.SplitExact | examples/echo_agent/internal/slimconfig/slimconfig.go:357 | Splitting gives comma-free parts that join to the string |
| Lists.SplitUnique | examples/echo_agent/internal/slimconfig/slimconfig.go:357 | There is no other way to do that |
| Lists.EntriesOfJoined | examples/echo_agent/internal/slimconfig/slimconfig.go:355-366 | Two options joined by a comma parse to one list after the other |
| Lists.EntriesOfPart | examples/echo_agent/internal/slimconfig/slimconfig.go:357-361 | A part without commas gives one entry, itself without the space around it, or none when it is all space; with EntriesOfJoined this determines the entries of every string |
| Lists.SpacedWords | examples/echo_agent/internal/slimconfig/slimconfig.go:355-366 | Clean words with any space around each, joined by commas, parse to the words |
| Lists.PrintParse | examples/echo_agent/internal/slimconfig/slimconfig.go:355-366 | Printing a list with commas and parsing it gives it back if and only if its elements are non-empty, trimmed and comma-free |
| Lists.ParsePrintParse | examples/echo_agent/internal/slimconfig/slimconfig.go:355-366 | Every parsed list is such a list, so it survives being printed and parsed again |
| SlimConfig.ParseJWTAlgorithmExact | examples/echo_agent/internal/slimconfig/slimconfig.go:301-324 | A string names an algorithm if and only if it has the length of one of its registered names (EdDSA also Ed25519) and agrees with it character by character up to ASCII case, long s and dotless i passing for S and I |
| SlimConfig.ParseJWTKeyFormatExact | examples/echo_agent/internal/slimconfig/slimconfig.go:328-339 | The same for the key formats jwks, jwk and pem, the Kelvin sign and dotted I passing for k and i |
| SlimConfig.JwtSignerExact | examples/echo_agent/internal/slimconfig/slimconfig.go:268-296 | Signing is configured exactly when there is a key, an issuer or subject, and a known algorithm, with every field given, and the `iss` claim (section 4.1.1 of RFC 7519) never empty; otherwise the first of these that is missing is the rejection |
| SlimConfig.IdentityConfigsExact | examples/echo_agent/internal/slimconfig/slimconfig.go:157-212 | The exact condition for provider and verifier configs and for each rejection; the two share algorithm, audience and duration, the provider is the configured signer, and every other field is as the options give it |
| SlimConfig.MakeClientConfig | examples/echo_agent/internal/slimconfig/slimconfig.go:215-265 | The exact condition for a connection config and for each rejection; the connection is plain text exactly without --tls and with an endpoint that begins with neither https:// nor wss://, no TLS option is dropped, client certificate and key come together, and credentials are sent exactly in the bearer and jwt modes, a bearer token with a duration of one hour |

## Left out

- The SLIM bindings: sessions, MLS, the channel's own protocol and what `ContextFromRpcContext` does; a converted context is an arbitrary chain.
- RelayMachine.Reachable: a run starts with a decoded request and an open stream; a request that does not convert is a producer that fails at once. Pulling, encoding and sending an event is one step, as is receiving, decoding and yielding one. In `ChainMachine` a yield and the round of the loop it feeds are one step too, since they run on one goroutine.
- Protobuf encoding and `pbconv`: arbitrary partial functions. Text of an error is kept as one string; how an `RpcError` renders itself is not modelled.
- Deadlines as time: a context carries deadlines, but nothing expires, and `cancel` has no effect.
- Typed nil pointers behind a Go error interface: an error is either present or absent.
- The other unary methods of both versions: each is an instance of the codec of `UnaryCalls.Transparency`; only the two that v0 treats differently are instantiated.
- Contexts.HandlerContext: metadata in a context is a value, so sharing of a map between contexts is only modelled in `WithoutSessionKeys`, whose two loops are methods of their own.
- Registration.RegisterService: the generated Register functions are eleven calls in a row; here they are a list walked by a loop, and a panic is a result that stops it.
- ServerLoop.RelayEvents: a method must end, so the loop that never returns, over a producer that never ends and a sink that never fails, is covered by `RelayMachine` and `ChainMachine` only.
- SlimConfig.MakeClientConfig: the switch on the node authentication is a method of its own, `MakeNodeAuth`.
- SlimConfig: a rejected option set gives the reason only, not the partly filled config the Go functions return beside the error; `RegisterFlags`, `CreateApp`, `Connect`, logging and environment lookup are input and output.
- SlimConfig.ParseJWTAlgorithm: case folding is modelled for the characters that can become one of the letters compared, not for all of Unicode.
- The generated clients beyond marshal, call and unmarshal, the multicast clients, `Destroy`, and the example programs.

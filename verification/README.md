# Connection factory, MD5 wrapper and event context of the MongoDB .NET driver, in Dafny

This project models three small, sequential pieces of the MongoDB C# driver as
immutable state and pure functions, and proves properties of them.

- **`TcpStreamFactory`** (`tcp_stream_factory.dfy`) covers the decisions the
  TCP stream factory makes. It picks the address family of a new socket. On the
  blocking path it tries the resolved addresses one after another. On the
  asynchronous path, `ConnectAsync` classifies its outcome from the `cancelled`
  and `timedOut` flags and the caught exception. Finally, the factory sets
  socket and stream options in a fixed order. Sockets are abstract numbered
  handles. The name resolver and the network are oracles: each resolved
  candidate carries the outcome its connect will have. The cancellation and
  timer callbacks are events in a trace, and each one sets its flag.
- **`Md5HashWrapper`** (`md5_hash_wrapper.dfy`) covers the GridFS hash
  wrapper: its argument checks, the raw-data buffer, the `State` flag, the
  `Hash` getter and disposal. The digest is a function value that the wrapper
  holds (`algorithm`). The constants are `HashSizeValue` = 128,
  `InputBlockSize` = `OutputBlockSize` = 1, and `CanTransformMultipleBlocks` =
  `CanReuseTransform` = true.
- **`EventContext`** (`event_context.dfy`) covers the three ambient slots:
  the find batch size and limit, the kill-cursors namespace, and the operation
  id. Each slot follows "set if absent, otherwise a no-op disposer". Disposing
  a real disposer clears its slot. A tree of nested `using` scopes
  (`Scope`/`Run`) models how operations nest.
- `Basics` (`basics.dfy`) holds `Option` (C# `null`) and `Result`.

## Behaviour of the code worth knowing

- A connect that succeeds after the timer or the cancellation callback fired
  is not discarded. `ConnectAsync` sets `connected` and returns without
  looking at the flags. The stream then fails with `ObjectDisposedException`
  when the first option is set on the socket the callback disposed. It does
  not report a timeout or a cancellation. See `SuccessAfterTimeoutIsNotDiscarded`
  and `AsyncCompletesOnlyOnFirstEventSuccess`.
- The blocking path ignores its cancellation token and applies no connect
  timeout (`CreateStreamIgnoresCancellation`).
- Sockets whose connect failed are not disposed. This holds for every failed
  candidate on the blocking path. It also holds for the rethrow path of
  `ConnectAsync` (`FailureWithoutCallbackIsRethrown`).
- Only the last candidate's exception is kept. An empty address list throws
  a plain "unable to connect" exception, not a dedicated error kind.
- On the asynchronous path the socket itself resolves a host name, so the
  candidate loop exists only on the blocking path.

## Model

| member | source | states |
|---|---|---|
| TcpStreamFactory.GetAddressFamily | src/MongoDB.Driver.Core/Core/Connections/TcpStreamFactory.cs:185-191 | the settings' family exactly when the end point's family is Unspecified or Unknown, otherwise the end point's own family |
| TcpStreamFactory.CreateSocket | src/MongoDB.Driver.Core/Core/Connections/TcpStreamFactory.cs:193-201 | the new socket's family agrees with `GetAddressFamily` for every end point and settings |
| TcpStreamFactory.FamilyUnsetOnlyIfBothUnset | src/MongoDB.Driver.Core/Core/Connections/TcpStreamFactory.cs:185-191 | a socket ends up with an unset family exactly when both the end point and the settings leave it unset |
| TcpStreamFactory.ConfigureConnectedSocket | src/MongoDB.Driver.Core/Core/Connections/TcpStreamFactory.cs:62-73 | options are set in the order NoDelay=true, receive buffer, send buffer; the configurator comes last and only when present |
| TcpStreamFactory.ConfiguratorRunsAfterDefaults | src/MongoDB.Driver.Core/Core/Connections/TcpStreamFactory.cs:62-73 | the socket options end as the configurator applied to the defaults, so the configurator can override NoDelay and the two buffer sizes; the stream timeouts set afterwards are untouched here |
| TcpStreamFactory.StreamTimeoutSteps | src/MongoDB.Driver.Core/Core/Connections/TcpStreamFactory.cs:164-180 | only stream timeouts are set after the socket is wrapped |
| TcpStreamFactory.StreamTimeoutsApplied | src/MongoDB.Driver.Core/Core/Connections/TcpStreamFactory.cs:164-180 | each timeout reaches the stream exactly when it is present and non-zero; otherwise the stream default is left alone |
| TcpStreamFactory.CreateNetworkStream | src/MongoDB.Driver.Core/Core/Connections/TcpStreamFactory.cs:158-183 | the stream owns the socket; the steps applied are exactly the socket configuration followed by the stream timeout steps, and the final configuration is what those steps produce from the socket's initial options; the final options and timeouts are as above; a disposed socket fails with ObjectDisposedException |
| TcpStreamFactory.FirstAccepting | src/MongoDB.Driver.Core/Core/Connections/TcpStreamFactory.cs:85-92 | the first candidate in resolver order that accepts, with every earlier one refusing; none exactly when all refuse |
| TcpStreamFactory.ConnectEach | src/MongoDB.Driver.Core/Core/Connections/TcpStreamFactory.cs:84-100 | one new socket per tried address, all of one family; every attempt before the last was refused; success is the last attempt's socket, which accepted; failure means every address was tried and refused, and the last cause is thrown; with no addresses, the generic error |
| TcpStreamFactory.ConnectEachStopsAtFirstAccepting | src/MongoDB.Driver.Core/Core/Connections/TcpStreamFactory.cs:85-92 | the attempts stop exactly at the first accepting address and return its socket; with none, every address is tried |
| TcpStreamFactory.Connect | src/MongoDB.Driver.Core/Core/Connections/TcpStreamFactory.cs:75-108 | every socket uses the family derived from the original end point; a resolver failure propagates with no socket; zero addresses give the generic error with no socket; a literal end point gets one socket and one connect |
| TcpStreamFactory.FirstAcceptingAddressWins | src/MongoDB.Driver.Core/Core/Connections/TcpStreamFactory.cs:85-92 | for a host name: success exactly when some address accepts; then exactly the addresses up to the first accepting one are tried, in resolver order, on the end point's port |
| TcpStreamFactory.AllRefusedThrowsLast | src/MongoDB.Driver.Core/Core/Connections/TcpStreamFactory.cs:84-99 | when every address refuses, all are tried and the last one's exception is thrown |
| TcpStreamFactory.CreateStream | src/MongoDB.Driver.Core/Core/Connections/TcpStreamFactory.cs:47-52 | the blocking stream is the connected socket configured and wrapped by `CreateNetworkStream` (owning the socket, options and timeouts applied), and connect failures pass through unchanged |
| TcpStreamFactory.CreateStreamIgnoresCancellation | src/MongoDB.Driver.Core/Core/Connections/TcpStreamFactory.cs:47-52 | the blocking path's result does not depend on the cancellation token |
| TcpStreamFactory.OnCancellation | src/MongoDB.Driver.Core/Core/Connections/TcpStreamFactory.cs:116 | the token is marked cancelled; only while not connected is the `cancelled` flag set and the socket disposed |
| TcpStreamFactory.OnTimer | src/MongoDB.Driver.Core/Core/Connections/TcpStreamFactory.cs:117 | only while not connected is the `timedOut` flag set and the socket disposed; otherwise nothing changes |
| TcpStreamFactory.AfterConnectFailure | src/MongoDB.Driver.Core/Core/Connections/TcpStreamFactory.cs:136-155 | the exception is rethrown unchanged when neither flag is set; once swallowed, a requested cancellation wins; a TimeoutException is thrown exactly when the timer fired and cancellation was not requested |
| TcpStreamFactory.RunRace | src/MongoDB.Driver.Core/Core/Connections/TcpStreamFactory.cs:110-155 | `ConnectAsync` settles exactly when a completion occurs in the trace; callbacks only ever set flags; `cancelled` comes only with a cancelled token and a disposal only with a callback; a normal return means connected or a swallowed cancellation without a cancelled token; a rethrow with no callback and no connection throws a cause from the trace |
| TcpStreamFactory.RunRaceMatchesSpec | src/MongoDB.Driver.Core/Core/Connections/TcpStreamFactory.cs:110-143 | running the callbacks event by event equals the declarative account: the flags come from exactly the callbacks that fired before the first completion, and that completion alone decides the outcome |
| TcpStreamFactory.ConnectAsyncReturnsOnlyOnSuccess | src/MongoDB.Driver.Core/Core/Connections/TcpStreamFactory.cs:110-155 | `ConnectAsync` returns normally exactly when its connect succeeds; the swallow-and-return path is unreachable |
| TcpStreamFactory.FailureWithoutCallbackIsRethrown | src/MongoDB.Driver.Core/Core/Connections/TcpStreamFactory.cs:136-141 | with no callback before the failure, the cause is rethrown unchanged and the socket is not disposed |
| TcpStreamFactory.FailureAfterCallbackIsClassified | src/MongoDB.Driver.Core/Core/Connections/TcpStreamFactory.cs:136-155 | after a cancellation the failure becomes OperationCanceledException; after only the timer, a TimeoutException carrying the end point and the connect timeout |
| TcpStreamFactory.CreateStreamAsync | src/MongoDB.Driver.Core/Core/Connections/TcpStreamFactory.cs:54-59 | the task is running exactly while the connect has not completed; an exception `ConnectAsync` throws (the rethrown cause, `OperationCanceledException` or `TimeoutException`) becomes the task's fault unchanged; a completed stream sits on the socket `CreateSocket` makes and is configured exactly like the blocking path's |
| TcpStreamFactory.AsyncCompletesOnlyOnFirstEventSuccess | src/MongoDB.Driver.Core/Core/Connections/TcpStreamFactory.cs:116-134 | the task completes exactly when the connect succeeds before any callback fires; a success after a callback faults with ObjectDisposedException |
| TcpStreamFactory.SuccessAfterTimeoutIsNotDiscarded | src/MongoDB.Driver.Core/Core/Connections/TcpStreamFactory.cs:116-134 | for every trace whose first completion is a success with the timer firing before it: returned as a success, with `timedOut` set and the socket disposed |
| TcpStreamFactory.AsyncRunningUntilCompletion | src/MongoDB.Driver.Core/Core/Connections/TcpStreamFactory.cs:110-134 | the task is still running exactly while the connect has not completed |
| Md5HashWrapper.New | src/MongoDB.Driver.GridFS/MD5HashWrapper.cs:9-15 | a new wrapper has no hash value, no raw data, State 0, is not disposed and digests with the algorithm it was given; `algorithm` stands for the `MD5.Create()` instance the constructor assigns (line 55) |
| Md5HashWrapper.CheckRegion | src/MongoDB.Driver.GridFS/MD5HashWrapper.cs:117-128 | the region is accepted exactly when the buffer is non-null and the region lies inside it; errors come in the order null buffer, negative offset, bad count, offset past the end |
| Md5HashWrapper.ComputeHashStream | src/MongoDB.Driver.GridFS/MD5HashWrapper.cs:66-86 | disposal is checked first; the result is the digest of the raw data, whatever the stream holds; it becomes the hash value; nothing else changes |
| Md5HashWrapper.ComputeHashBuffer | src/MongoDB.Driver.GridFS/MD5HashWrapper.cs:96-107 | disposal is checked before the null buffer; the result is the digest of the raw data, not of the buffer; it becomes the hash value; raw data and State are unchanged |
| Md5HashWrapper.ComputeHashRegion | src/MongoDB.Driver.GridFS/MD5HashWrapper.cs:117-134 | the region checks come before disposal; the result is the digest of the raw data; it becomes the hash value |
| Md5HashWrapper.TransformBlock | src/MongoDB.Driver.GridFS/MD5HashWrapper.cs:144-168 | after the checks and the disposal test: State 1, exactly the region appended to the raw data, the count returned, the hash value untouched |
| Md5HashWrapper.TransformFinalBlock | src/MongoDB.Driver.GridFS/MD5HashWrapper.cs:178-208 | the hash value is the digest of the raw data before this call; then the region is appended and State goes back to 0; the result is a copy of the region |
| Md5HashWrapper.Hash | src/MongoDB.Driver.GridFS/MD5HashWrapper.cs:19-30 | fails when disposed, then when State is not 0, then on a null hash value; otherwise returns the hash value |
| Md5HashWrapper.DisposeCore | src/MongoDB.Driver.GridFS/MD5HashWrapper.cs:231-240 | `Dispose(false)` changes nothing; `Dispose(true)` marks the wrapper disposed and drops the hash value and the raw data |
| Md5HashWrapper.Dispose | src/MongoDB.Driver.GridFS/MD5HashWrapper.cs:213-217 | afterwards the wrapper is disposed, with no hash value and no raw data |
| Md5HashWrapper.Clear | src/MongoDB.Driver.GridFS/MD5HashWrapper.cs:222-225 | `Clear` is `Dispose` |
| Md5HashWrapper.DisposeIsIdempotent | src/MongoDB.Driver.GridFS/MD5HashWrapper.cs:231-240 | disposing twice is disposing once |
| Md5HashWrapper.UseAfterDisposeThrows | src/MongoDB.Driver.GridFS/MD5HashWrapper.cs:213-240 | after `Dispose` or `Clear`, every operation that passes its argument checks throws ObjectDisposedException |
| Md5HashWrapper.ComputeHashIgnoresItsInput | src/MongoDB.Driver.GridFS/MD5HashWrapper.cs:246-260 | all three `ComputeHash` overloads give the same result for any input, and they leave the raw data unchanged |
| Md5HashWrapper.ComputeHashKeepsTransformOpen | src/MongoDB.Driver.GridFS/MD5HashWrapper.cs:96-107 | `ComputeHash` does not reset State, so after a `TransformBlock` the `Hash` getter still refuses |
| Md5HashWrapper.FreshHashIsNull | src/MongoDB.Driver.GridFS/MD5HashWrapper.cs:19-30 | reading `Hash` on a fresh wrapper dereferences the null hash value |
| Md5HashWrapper.FeedBlocks | src/MongoDB.Driver.GridFS/MD5HashWrapper.cs:144-168 | feeding whole blocks through `TransformBlock` appends exactly their concatenation to the raw data, returns the total count and changes only raw data and State |
| Md5HashWrapper.FinalBlockIsNotInTheHash | src/MongoDB.Driver.GridFS/MD5HashWrapper.cs:178-208 | after streaming blocks and a final block, `Hash` is the digest of everything except the final block; a later `ComputeHash` also covers the final block |
| Md5HashWrapper.HashFinalCoversTransformedData | src/MongoDB.Driver.GridFS/MD5HashWrapper.cs:257-260 | the digest `HashFinal` computes on a fresh wrapper fed blocks through `TransformBlock` is the wrapper's algorithm applied to exactly those blocks, in order |
| Md5HashWrapper.LoneFinalBlockHashesEmpty | src/MongoDB.Driver.GridFS/MD5HashWrapper.cs:190-191 | on a fresh wrapper, a lone final block yields the digest of the empty input |
| EventContext.GetNextId | src/MongoDB.Driver.Core/Core/Events/EventContext.cs:118 | each generated id is larger than every earlier one |
| EventContext.BeginFind | src/MongoDB.Driver.Core/Core/Events/EventContext.cs:96-101 | batch size and limit are installed together exactly when no batch size is set; otherwise a no-op disposer and no change; the other slots are untouched |
| EventContext.BeginKillCursors | src/MongoDB.Driver.Core/Core/Events/EventContext.cs:103-108 | the namespace is installed exactly when none is set; otherwise a no-op; the other slots are untouched |
| EventContext.BeginOperation | src/MongoDB.Driver.Core/Core/Events/EventContext.cs:115-120 | when no id is set, the given id is installed, or a fresh one when it is null, and the generator is used only then; a nested call changes nothing |
| EventContext.BeginFreshOperation | src/MongoDB.Driver.Core/Core/Events/EventContext.cs:110-113 | the parameterless overload installs a fresh id, larger than every earlier one, with an `OperationIdDisposer` and no other slot changed when none is set; otherwise a no-op |
| EventContext.Dispose | src/MongoDB.Driver.Core/Core/Events/EventContext.cs:122-172 | each disposer clears exactly its own slots; the no-op disposer changes nothing |
| EventContext.NullBatchSizeDoesNotGuard | src/MongoDB.Driver.Core/Core/Events/EventContext.cs:96-101 | after `BeginFind(null, …)` the next `BeginFind` installs again, overwriting the limit |
| EventContext.NestedOperationKeepsOuterId | src/MongoDB.Driver.Core/Core/Events/EventContext.cs:115-130 | a nested `BeginOperation` and its disposal keep the outer id; disposing the outer scope restores the original context |
| EventContext.Run | src/MongoDB.Driver.Core/Core/Events/EventContext.cs:110-120 | running nested scopes never moves the id generator backwards |
| EventContext.NestedScopesRestoreContext | src/MongoDB.Driver.Core/Core/Events/EventContext.cs:96-172 | properly nested scopes leave every slot as they found it, whatever batch sizes the find scopes use (null included), provided no limit is set without a batch size at the start |
| EventContext.RunKeepsSlots | src/MongoDB.Driver.Core/Core/Events/EventContext.cs:96-172 | any program of nested scopes returns the kill-cursors and operation-id slots unchanged; a set batch size keeps both find slots; a missing batch size stays missing, and its limit survives or is cleared |
| EventContext.NullBatchSizeScopeRestoresContext | src/MongoDB.Driver.Core/Core/Events/EventContext.cs:96-146 | a find scope with a null batch size around a nested find scope, started from an empty context, ends with an empty context |
| EventContext.InnerFindClearsOuterLimit | src/MongoDB.Driver.Core/Core/Events/EventContext.cs:132-146 | a find scope begun with a null batch size does not guard its limit: a nested find scope's disposal clears the outer limit for the rest of the outer body |

## Left out

- Socket, DNS and `NetworkStream` I/O. Connect results and resolver answers are oracle inputs (`Candidate`, `Network`, `RaceEvent`).
- Real concurrency between the thread-pool timer, the cancellation registration and the awaited connect. The race is a sequential trace of events.
- Events after the connect completes are ignored. This covers a cancellation requested between the `catch` and `ThrowIfCancellationRequested`. The model also assumes the registration and the timer are gone once the `using` blocks end.
- `if (socket.Connected) socket.Dispose()` after a swallowed failure. The connect failed, so the socket is not connected, and a callback has already disposed it. The step changes nothing.
- TcpStreamFactory.ConfiguratorRunsAfterDefaults: socket options and stream timeouts are kept apart. In the runtime the `NetworkStream` timeout setters (`TcpStreamFactory.cs` lines 169 and 178) set the socket's receive and send timeouts, so they overwrite any timeouts a configurator set on the socket. The model does not track that overlap.
- TcpStreamFactory.ConfigureConnectedSocket: the configurator is a total function on socket options. A configurator that throws would propagate out of `CreateStream`/`CreateStreamAsync` and leave the connected socket undisposed. The model cannot express that failure.
- TcpStreamFactory.RunRace: a `TimerElapsed` event may occur whatever `connectTimeoutMs` is. A timer due at `Timeout.InfiniteTimeSpan` never fires, so traces with such an event and an infinite timeout (which could give `TimeoutException(endPoint, -1)`) cannot happen. The lemmas hold for every trace, so they also cover the traces that cannot happen.
- The `(int)TimeSpan.TotalMilliseconds` conversion. Durations are whole milliseconds.
- The range checks of the `NetworkStream.ReadTimeout`/`WriteTimeout` setters. The settings type that would validate those values is not part of this model.
- `TcpStreamSettings`, `Ensure`, `CollectionNamespace` and `LongIdGenerator` are not part of this model. They appear only as plain data, and the id generator is a counter.
- The MD5 algorithm itself, which is a foreign library call. It is the function value `algorithm`.
- The reading of the stream in `ComputeHash(Stream)`. The stream is an abstract list of chunks, because its contents are never used.
- `Array.Clear` of the old `HashValue` array during disposal. The model has no aliasing, so dropping the value is all that is observable.
- After disposal, `_rawData` is set to null. The model uses an empty sequence instead, and no operation reads the raw data once the wrapper is disposed.
- `AsyncLocal` flow across asynchronous continuations. One logical flow is modelled.
- The reflection helpers, the `MemberTypes` enum and the test-runner entry points are runtime glue. They are outside the three components.

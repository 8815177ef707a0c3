# CWServiceBus, modelled in Dafny

CWServiceBus is a .NET message bus. Handler classes are found by scanning
assemblies. Messages are dispatched to them through unit-of-work managers. Envelopes
travel over one of several transports: a transactional polling transport, a SQL
Server queue table, SQL Server Service Broker, or an in-process transport. This
project models the in-memory logic of that bus and proves properties of the model:

- **Handler registry** (`Registry`, `DispatchExtensions`, `Conventions`, over the
  type graph of `TypeGraphs`). It maps each message type to the ordered handler
  methods that serve it. It is built once, has no duplicates, and supports
  reorder-to-front.
- **Dispatcher** (`Dispatcher`). It runs every unit-of-work Begin, then the handlers
  message by message, stops at the first exception, and always ends with every End
  and the Dispatched event. All of this is proved about its event trace.
- **Per-message decision procedure and failure counter** (`Failures`, `Workers`,
  `Processing`). These are shared by the transactional (`Transactional`), SQL Server
  (`SqlServer`) and Service Broker (`ServiceBroker`) transports. The in-process
  transport is `InProc`. The model covers:
  - the retry ceiling;
  - the precedence of abort, handling and module exceptions;
  - the admission permit, released exactly once per Process;
  - the fault reports of each transport.
- **The two transaction wrappers** (`SqlTransactions`, `BrokerTransactions`). They model
  which call level opens, commits, rolls back and closes.
- **Unicast buses** (`Unicast`, `ServiceUnicast`). The model covers:
  - destination lookup with the mapper fallback;
  - the publish type closure;
  - send validation;
  - envelope construction;
  - control messages that change the in-memory subscription storage (`Subscriptions`).
- **Small value helpers**:
  - the envelope (`Envelopes`);
  - the message context and the header extension methods (`MessageContexts`,
    `HeaderExtensions`, `InterfaceHeaderExtensions`, `ServiceBusHeaderExtensions`);
  - the fast container's registration (`FastContainers`);
  - StatsD-style metrics packets (`Metrics`);
  - .NET's white-space test and string trimming (`Text`).

Stateful parts of the code are classes with `modifies` clauses. Each one is proved
against a specification function of its inputs and old state. Queues, databases,
serializers, reflection, handlers and subscribers are outside the model. What they
return or throw is a parameter, and what the code does with them is recorded as a
trace of events. Ids, clocks and the current principal's name are parameters too.

Where the repository's own description and its code disagree, the model follows the
code:

- The registry stores, under message type M, the handlers of every type assignable
  to M. This is the reverse of the documented direction.
- Publishing a message nobody subscribes to throws InvalidOperationException. It is
  not a no-op: the send validation rejects the empty destination list.

Where the code calls a member that does not exist, the model does the following:

- The dispatcher calls `GetOrderedDispatchInfoFor` (CWServiceBus.Core/Dispatch/MessageDispatcher.cs:27).
  The model uses the registry's `GetOrderedHandlersFor`.
- The SQL Server transport uses a `FaultNotification` intent that the intent
  enumeration lacks. The model adds it.

## Model

| member | source | states |
|---|---|---|
| Conventions.AnyHolds | CWServiceBus.Core/MessageTypeConventions.cs:30 | Any over the conventions: true exactly when some convention accepts the type |
| Conventions.AnyHoldsMonotone | CWServiceBus.Core/MessageTypeConventions.cs:21-27 | appending conventions never withdraws a type's message status |
| Conventions.MessageTypeConventions.constructor | CWServiceBus.Core/MessageTypeConventions.cs:12-14 | a new instance holds exactly the IMessage marker convention |
| Conventions.MessageTypeConventions.WithConventions | CWServiceBus.Core/MessageTypeConventions.cs:16-19 | the marker convention first, then the given ones in order |
| Conventions.MessageTypeConventions.AddConvention | CWServiceBus.Core/MessageTypeConventions.cs:21-23 | the convention is appended at the end; every type that was a message type still is |
| Conventions.MessageTypeConventions.AddConventions | CWServiceBus.Core/MessageTypeConventions.cs:25-27 | the conventions are appended in order; message status only grows |
| Conventions.MessageTypeConventions.IsMessageType | CWServiceBus.Core/MessageTypeConventions.cs:29-31 | true exactly when some stored convention accepts the type |
| Conventions.DefaultConventionsAreTheMarker | CWServiceBus.Core/MessageTypeConventions.cs:12-14 | with only the initial convention, a type is a message type exactly when it is assignable to IMessage |
| DispatchExtensions.MessageTypesOf | CWServiceBus.Core/Dispatch/DispatchExtensions.cs:29-40 | x is yielded exactly when some implemented generic interface with one argument x is assignable to IMessageHandler of x; never more results than interfaces |
| DispatchExtensions.DirectHandlerInterfaceYieldsItsArgument | CWServiceBus.Core/Dispatch/DispatchExtensions.cs:29-40 | a class implementing IMessageHandler of X lists X among its message types |
| DispatchExtensions.ForMessageTypeIsHandlerClass | CWServiceBus.Core/Dispatch/DispatchExtensions.cs:11-19 | a handler class for some message type is a handler class |
| DispatchExtensions.HandlerForSubtypeServesSupertype | CWServiceBus.Core/Dispatch/DispatchExtensions.cs:16-27 | a class that handles X counts as a handler for every supertype of X (the closed-by test checks that X is assignable to the key) |
| DispatchExtensions.HandleMethodForSubtypeServesSupertype | CWServiceBus.Core/Dispatch/DispatchExtensions.cs:42-47 | a Handle method whose parameter is X serves every supertype of X |
| Registry.HandlerClassesIn | CWServiceBus.Core/Dispatch/MessageHandlerCollection.cs:19 | a type is kept exactly when it is among the given types and is a concrete handler class |
| Registry.ScannedHandlerClasses | CWServiceBus.Core/Dispatch/MessageHandlerCollection.cs:17-20 | a type is gathered exactly when it is a handler class of some assembly |
| Registry.FindAllMessageHandlerTypes | CWServiceBus.Core/Dispatch/MessageHandlerCollection.cs:16-22 | the loop computes the distinct scan; no type twice; a type is listed exactly when it is a handler class of some assembly |
| Registry.HandledArguments | CWServiceBus.Core/Dispatch/MessageHandlerCollection.cs:34-35 | x is listed exactly when one of the interfaces is IMessageHandler with first generic argument x |
| Registry.AllHandledArguments | CWServiceBus.Core/Dispatch/MessageHandlerCollection.cs:33-35 | x is listed exactly when some handler type handles x |
| Registry.FindAllMessageTypesForDispatch | CWServiceBus.Core/Dispatch/MessageHandlerCollection.cs:31-37 | no type twice; x is listed exactly when some handler type implements IMessageHandler of x |
| Registry.HandledArgumentsAreTypes | CWServiceBus.Core/Dispatch/MessageHandlerCollection.cs:31-37 | in a well-formed type graph every message type found is a known type |
| Registry.DispatchTypesAreTypes | CWServiceBus.Core/Dispatch/MessageHandlerCollection.cs:31-37 | in a well-formed type graph every message type found for dispatch is a known type |
| Registry.MatchingFacts | CWServiceBus.Core/Dispatch/MessageHandlerCollection.cs:71-78 | an entry is produced exactly when it names the key, the handler class and one of its methods that is a Handle method for the key; distinct methods give distinct entries |
| Registry.CandidatesStep | CWServiceBus.Core/Dispatch/MessageHandlerCollection.cs:70-79 | scanning one more handler type appends that type's entries at the end |
| Registry.CandidatesExactly | CWServiceBus.Core/Dispatch/MessageHandlerCollection.cs:67-79 | an entry is listed under a key exactly when it names the key, a scanned handler class for the key and one of that class's Handle methods for the key |
| Registry.CandidatesNoDup | CWServiceBus.Core/Dispatch/MessageHandlerCollection.cs:72-77 | the Any check keeps each key's list free of duplicates |
| Registry.FirstMatchIsFirst | CWServiceBus.Core/Dispatch/MessageHandlerCollection.cs:97 | FirstOrDefault: null exactly when no handler is assignable to the requested type, otherwise the match at the lowest index |
| Registry.FirstMatchIsListed | CWServiceBus.Core/Dispatch/MessageHandlerCollection.cs:97 | a found handler is one of the key's handlers |
| Seqs.DistinctOrder | CWServiceBus.Core/Dispatch/MessageHandlerCollection.cs:95-101 | Distinct lists each element once, in the order of first occurrence |
| Seqs.ExceptOrder | CWServiceBus.Core/Dispatch/MessageHandlerCollection.cs:102 | for a duplicate-free list, the elements Except keeps appear in the same relative order as in the list |
| Registry.Picks | CWServiceBus.Core/Dispatch/MessageHandlerCollection.cs:95-101 | the handlers chosen to run first are distinct and all come from the key's list (their request order is PicksAreDistinctMatches) |
| Registry.MatchesOf | CWServiceBus.Core/Dispatch/MessageHandlerCollection.cs:95-100 | at most one first match per requested type |
| Registry.MatchesOfHas | CWServiceBus.Core/Dispatch/MessageHandlerCollection.cs:97-100 | the first match of every requested type that has one is among the matches |
| Registry.PicksAreDistinctMatches | CWServiceBus.Core/Dispatch/MessageHandlerCollection.cs:95-101 | the picks are the first matches of the requested types, in request order, each kept at its first appearance, as HashSet.Add keeps them |
| Registry.ReorderFirstOrder | CWServiceBus.Core/Dispatch/MessageHandlerCollection.cs:95-102 | the new list starts with the distinct first matches in request order; after them come exactly the other handlers, in the order they had |
| Registry.ReorderAllKeepsCandidates | CWServiceBus.Core/Dispatch/MessageHandlerCollection.cs:93-103 | after reordering, every key still lists its candidates, each once |
| Registry.ReorderIsPermutation | CWServiceBus.Core/Dispatch/MessageHandlerCollection.cs:102 | the new list is a duplicate-free permutation of the old one |
| Registry.ReorderPutsFirstRequestFirst | CWServiceBus.Core/Dispatch/MessageHandlerCollection.cs:96-102 | the handler found for the first requested type runs first |
| Registry.PicksStartWithFirst | CWServiceBus.Core/Dispatch/MessageHandlerCollection.cs:96-101 | the picks start with the first requested type's match |
| Registry.ExampleFirstPass | CWServiceBus.Core/Dispatch/MessageHandlerCollection.cs:91-104 | a concrete reordering: [f2, f1, f3] becomes [f1, f2, f3] |
| Registry.ExampleSecondPass | CWServiceBus.Core/Dispatch/MessageHandlerCollection.cs:95-101 | on [f1, f2, f3] the same request picks [f1, f3, f2] |
| Registry.ReorderNotIdempotent | CWServiceBus.Core/Dispatch/MessageHandlerCollection.cs:91-104 | calling ExecuteTheseHandlersFirst twice with the same types can reorder again |
| Registry.ReorderAll | CWServiceBus.Core/Dispatch/MessageHandlerCollection.cs:93-103 | the loop over the keys keeps the keys and reorders each key's list |
| Registry.ChooseFirst | CWServiceBus.Core/Dispatch/MessageHandlerCollection.cs:95-101 | the loop over the requested types computes the picks: the distinct first matches in request order, all from the list |
| Registry.CollectMethods | CWServiceBus.Core/Dispatch/MessageHandlerCollection.cs:71-78 | the inner loop appends each not yet listed Handle method of the class that serves the key |
| Registry.CollectHandlers | CWServiceBus.Core/Dispatch/MessageHandlerCollection.cs:70-79 | the outer loop appends the missing candidates in scan order |
| Registry.MessageHandlerCollection.constructor | CWServiceBus.Core/Dispatch/MessageHandlerCollection.cs:45-47 | a new collection is uninitialised, scans nothing, indexes nothing and keeps the given conventions |
| Registry.MessageHandlerCollection.RegisterDispatchHandler | CWServiceBus.Core/Dispatch/MessageHandlerCollection.cs:67-89 | the key is indexed with its candidates; keys are added only for the type and its supertypes |
| Registry.MessageHandlerCollection.RegisterBase | CWServiceBus.Core/Dispatch/MessageHandlerCollection.cs:81-84 | a class's base type other than object is registered when the conventions approve it |
| Registry.MessageHandlerCollection.RegisterInterface | CWServiceBus.Core/Dispatch/MessageHandlerCollection.cs:86-87 | an interface is registered when the conventions approve it |
| Registry.MessageHandlerCollection.RegisterInterfaces | CWServiceBus.Core/Dispatch/MessageHandlerCollection.cs:85-88 | every approved interface of the type ends up indexed; no key outside the type's supertypes is added |
| Registry.MessageHandlerCollection.RegisterMessageType | CWServiceBus.Core/Dispatch/MessageHandlerCollection.cs:61-63 | one iteration: the message type is indexed; the index stays closed under approved supertypes and holds only reachable types |
| Registry.MessageHandlerCollection.RegisterAll | CWServiceBus.Core/Dispatch/MessageHandlerCollection.cs:61-63 | the keys are exactly the handled message types and all they reach through approved base classes and interfaces; each key lists exactly its candidates |
| Registry.MessageHandlerCollection.Init | CWServiceBus.Core/Dispatch/MessageHandlerCollection.cs:57-65 | a second call changes nothing; the first makes the keys exactly the handled types and the approved supertypes they reach, each key listing exactly its candidates |
| Registry.MessageHandlerCollection.Scan | CWServiceBus.Core/Dispatch/MessageHandlerCollection.cs:59-64 | the first Init: the keys are exactly what the handled types reach, each with its candidates, and the collection is marked initialised |
| Registry.MessageHandlerCollection.IndexedIsValid | CWServiceBus.Core/Dispatch/MessageHandlerCollection.cs:59-64 | a key set listing each key's candidates after the scan is a valid, duplicate-free registry |
| Registry.MessageHandlerCollection.ReachParent | CWServiceBus.Core/Dispatch/MessageHandlerCollection.cs:81-88 | a type reaches itself, and everything an approved parent reaches |
| Registry.MessageHandlerCollection.ClosedHoldsReach | CWServiceBus.Core/Dispatch/MessageHandlerCollection.cs:67-88 | a key set closed under approved parents that holds a type holds everything the type reaches |
| Registry.MessageHandlerCollection.ReachAllHoldsMessageTypes | CWServiceBus.Core/Dispatch/MessageHandlerCollection.cs:61-63 | every handled message type is reached |
| Registry.MessageHandlerCollection.ReachAllIsClosed | CWServiceBus.Core/Dispatch/MessageHandlerCollection.cs:81-88 | the reached types hold the approved base class and interfaces of each of their members |
| Registry.MessageHandlerCollection.ReachAllIsLeast | CWServiceBus.Core/Dispatch/MessageHandlerCollection.cs:61-88 | every closed key set holding the handled types holds all reached types |
| Registry.MessageHandlerCollection.ReachedExactly | CWServiceBus.Core/Dispatch/MessageHandlerCollection.cs:61-88 | a closed key set that holds every handled type and only reached types is exactly the reached set |
| Registry.MessageHandlerCollection.ExecuteTheseHandlersFirst | CWServiceBus.Core/Dispatch/MessageHandlerCollection.cs:91-104 | throws "not initialized" and changes nothing before Init; afterwards every key's list becomes ReorderFirst of its old list (picks first in request order, then the rest in their old order), same keys |
| Registry.MessageHandlerCollection.AddAssembliesToScan | CWServiceBus.Core/Dispatch/MessageHandlerCollection.cs:106-111 | refused after Init with the set unchanged; otherwise each new assembly is added once, in order |
| Registry.MessageHandlerCollection.AddAssemblyToScan | CWServiceBus.Core/Dispatch/MessageHandlerCollection.cs:118-121 | after Init, throws "Collection already initialized" and changes nothing; before it, adds the assembly unless present |
| Registry.MessageHandlerCollection.AllMessageTypes | CWServiceBus.Core/Dispatch/MessageHandlerCollection.cs:123-126 | fails exactly when not initialised; otherwise the indexed keys |
| Registry.MessageHandlerCollection.GetOrderedHandlersFor | CWServiceBus.Core/Dispatch/MessageHandlerCollection.cs:128-135 | fails with "not initialized" exactly before Init; an unknown type gives an empty list |
| Registry.OrderedHandlersAreTheCandidates | CWServiceBus.Core/Dispatch/MessageHandlerCollection.cs:57-89 | after Init an indexed type's handlers are exactly the Handle methods of scanned handler classes that serve it, each once |
| Dispatcher.Calls | CWServiceBus.Core/Dispatch/MessageDispatcher.cs:27 | one call per registry entry for the message, in registry order |
| Dispatcher.EndEvents | CWServiceBus.Core/Dispatch/MessageDispatcher.cs:78-80 | one End per manager, in enumeration order, each with the reported exception |
| Dispatcher.InvokedConcat | CWServiceBus.Core/Dispatch/MessageDispatcher.cs:25-50 | the handler calls of two consecutive traces are those of the first followed by those of the second |
| Dispatcher.HandlerInvokesOnce | CWServiceBus.Core/Dispatch/MessageDispatcher.cs:29-48 | resolving, building up and disposing a handler invokes exactly the one call |
| Dispatcher.HandlersStopAtFirstFailure | CWServiceBus.Core/Dispatch/MessageDispatcher.cs:27-49 | a message's handlers are invoked in registry order up to and including the first that throws, and that exception is the result |
| Dispatcher.MessagesStopAtFirstFailure | CWServiceBus.Core/Dispatch/MessageDispatcher.cs:25-50 | over the batch the handlers run in schedule order and stop at the first exception |
| Dispatcher.UninitializedRegistryRunsNothing | CWServiceBus.Core/Dispatch/MessageDispatcher.cs:27 | before the registry is initialised the first lookup throws "not initialized" and no handler runs |
| Dispatcher.BeginEvents | CWServiceBus.Core/Dispatch/MessageDispatcher.cs:67-68 | one Begin per manager, in enumeration order |
| Dispatcher.BeginsInOrder | CWServiceBus.Core/Dispatch/MessageDispatcher.cs:66-68 | the managers begin in order: all of them exactly when none throws, otherwise a prefix whose last Begin threw that exception |
| Dispatcher.HandlerDisposal | CWServiceBus.Core/Dispatch/MessageDispatcher.cs:29-48 | a located handler is never disposed; a created one is disposed exactly when it is disposable, even when its Invoke threw |
| Dispatcher.HandlersRunEvents | CWServiceBus.Core/Dispatch/MessageDispatcher.cs:27-49 | one message's handler events keep every handler built before invoked and dispose only created ones |
| Dispatcher.MessagesRunEvents | CWServiceBus.Core/Dispatch/MessageDispatcher.cs:25-50 | the same holds across the batch |
| Dispatcher.DispatchRunParts | CWServiceBus.Core/Dispatch/MessageDispatcher.cs:21-62 | the part of the trace between OnDispatching and the catch block holds only handler events |
| Dispatcher.PrologueKinds | CWServiceBus.Core/Dispatch/MessageDispatcher.cs:64-74 | OnDispatching loads managers, begins them and raises Dispatching, and nothing else |
| Dispatcher.EpilogueKinds | CWServiceBus.Core/Dispatch/MessageDispatcher.cs:51-61 | the catch and finally blocks raise only DispatchException, End and Dispatched |
| Dispatcher.InvocationsInBody | CWServiceBus.Core/Dispatch/MessageDispatcher.cs:23-25 | a handler is invoked only after OnDispatching, and only when every Begin succeeded |
| Dispatcher.BeginsPrecedeHandlers | CWServiceBus.Core/Dispatch/MessageDispatcher.cs:23-25 | a trace with an invocation began every manager, in order, before it |
| Dispatcher.PrologueOnSuccess | CWServiceBus.Core/Dispatch/MessageDispatcher.cs:64-74 | when no Begin throws OnDispatching is the optional load, every Begin in order and Dispatching |
| Dispatcher.EndsOnceAtTheEnd | CWServiceBus.Core/Dispatch/MessageDispatcher.cs:59-61 | every manager's End runs once, after everything else, with the reported exception (none on success); Dispatched closes the trace and says whether the call failed |
| Dispatcher.FailureReported | CWServiceBus.Core/Dispatch/MessageDispatcher.cs:51-58 | DispatchException fires only on failure, with the exception unwrapped from a TargetInvocationException; the caller gets the exception as caught |
| Dispatcher.ManagersLoadedOnce | CWServiceBus.Core/Dispatch/MessageDispatcher.cs:89-101 | the managers are fetched exactly when they were not yet loaded, and first |
| Dispatcher.HandlersInScheduleOrder | CWServiceBus.Core/Dispatch/MessageDispatcher.cs:21-62 | with an initialised registry the handlers run message by message in registry order up to the first exception; a failing Begin runs no handler |
| Dispatcher.InvokedIsBody | CWServiceBus.Core/Dispatch/MessageDispatcher.cs:21-62 | the call's handler invocations are exactly those of its try block |
| Dispatcher.HandlersBuiltAndDisposed | CWServiceBus.Core/Dispatch/MessageDispatcher.cs:29-48 | across the call every handler is built up right before it is invoked, and only created ones are disposed |
| Dispatcher.BeginsStopped | CWServiceBus.Core/Dispatch/MessageDispatcher.cs:67-68 | once a Begin throws, the later managers do not begin |
| Dispatcher.HandlersStopped | CWServiceBus.Core/Dispatch/MessageDispatcher.cs:27-49 | once a handler throws, the later handlers do not run |
| Dispatcher.MessagesStopped | CWServiceBus.Core/Dispatch/MessageDispatcher.cs:25-50 | once a message's handler throws, the later messages are not dispatched |
| Dispatcher.MessageDispatcher.constructor | CWServiceBus.Core/Dispatch/MessageDispatcher.cs:9-12 | a new dispatcher keeps the locator's managers and the registry, with no managers loaded and nothing done |
| Dispatcher.MessageDispatcher.EnsureUnitOfWorkManagersLoaded | CWServiceBus.Core/Dispatch/MessageDispatcher.cs:89-101 | the managers are loaded afterwards; a load is recorded only when none had happened |
| Dispatcher.MessageDispatcher.OnDispatching | CWServiceBus.Core/Dispatch/MessageDispatcher.cs:64-74 | appends the prologue and returns the first Begin exception |
| Dispatcher.MessageDispatcher.OnDispatched | CWServiceBus.Core/Dispatch/MessageDispatcher.cs:76-87 | appends an End per manager with the exception, then Dispatched with its error flag |
| Dispatcher.MessageDispatcher.OnDispatchException | CWServiceBus.Core/Dispatch/MessageDispatcher.cs:103-110 | appends DispatchException with the given exception |
| Dispatcher.MessageDispatcher.DispatchEach | CWServiceBus.Core/Dispatch/MessageDispatcher.cs:25-50 | the loop over the batch computes the batch's handler run |
| Dispatcher.MessageDispatcher.DispatchMessages | CWServiceBus.Core/Dispatch/MessageDispatcher.cs:21-62 | the trace grows by exactly the dispatch run and the call throws its error; the managers are loaded afterwards |
| Dispatcher.BeginAll | CWServiceBus.Core/Dispatch/MessageDispatcher.cs:66-68 | the loop over the managers computes the Begin run |
| Dispatcher.EndAll | CWServiceBus.Core/Dispatch/MessageDispatcher.cs:78-80 | the loop over the managers computes the End events |
| Dispatcher.InvokeHandler | CWServiceBus.Core/Dispatch/MessageDispatcher.cs:29-48 | one registry entry computes the handler run |
| Dispatcher.InvokeHandlers | CWServiceBus.Core/Dispatch/MessageDispatcher.cs:27-49 | the loop over one message's entries computes its handler run |
| Dispatcher.SecondCallDoesNotReload | CWServiceBus.Core/Dispatch/MessageDispatcher.cs:89-101 | a dispatcher that has loaded its managers never fetches them again |
| Failures.Increment | CWServiceBus.Core/Transport/TransactionalTransport.cs:197-211 | one more failure for the id (the first makes it one) and the exception stored as its last; every other id keeps its count and exception |
| Failures.Clear | CWServiceBus.Core/Transport/TransactionalTransport.cs:183-195 | the id leaves both dictionaries; other ids are untouched; an unknown id changes nothing |
| Failures.TakeAtCeiling | CWServiceBus.Core/Transport/TransactionalTransport.cs:150-171 | at the ceiling exactly when the id has at least maxRetries failures; then the last exception is handed out and both entries removed, otherwise nothing changes |
| Failures.FailuresReachCeiling | CWServiceBus.Core/Transport/TransactionalTransport.cs:150-211 | after k failed attempts from a cleared id the count is k, the last exception is kept, other ids are untouched, and the id is at the ceiling exactly when k is at least one and at least maxRetries |
| Failures.FailureCounter.constructor | CWServiceBus.Core/Transport/TransactionalTransport.cs:295-296 | both dictionaries start empty |
| Failures.FailureCounter.IncrementFailuresForMessage | CWServiceBus.Core/Transport/TransactionalTransport.cs:197-211 | the dictionaries become Increment of what they were |
| Failures.FailureCounter.ClearFailuresForMessage | CWServiceBus.Core/Transport/TransactionalTransport.cs:183-195 | the dictionaries become Clear of what they were |
| Failures.FailureCounter.TakeIfAtCeiling | CWServiceBus.Core/Transport/TransactionalTransport.cs:150-171 | the decision, the exception handed out and the dictionaries afterwards are TakeAtCeiling's |
| Workers.WorkerPool.constructor | CWServiceBus.Core/Transport/TransactionalTransport.cs:290 | the list starts empty |
| Workers.WorkerPool.AddWorkerThread | CWServiceBus.Core/Transport/TransactionalTransport.cs:67-79 | one running worker is appended |
| Workers.WorkerPool.StartWorkers | CWServiceBus.Core/Transport/TransactionalTransport.cs:58-63 | n running workers are appended (none when n is not positive); the old ones are unchanged |
| Workers.WorkerPool.ChangeNumberOfWorkerThreads | CWServiceBus.Core/Transport/TransactionalTransport.cs:35-56 | a negative target throws before anything changes; otherwise growing appends running workers up to the target and shrinking asks the workers from the target on to stop |
| Processing.AfterDispatch | CWServiceBus.Core/Transport/TransactionalTransport.cs:138-147 | nothing is thrown exactly when no abort, handling or module exception occurred; an abort wins, then the handling exception, then the module exception |
| Processing.CeilingSkipsDispatch | CWServiceBus.Core/Transport/TransactionalTransport.cs:118-127 | a message at the ceiling is never dispatched, nothing is thrown, its entries are removed, and the events are started, the ceiling events, finished |
| Processing.BelowCeilingDispatches | CWServiceBus.Core/Transport/TransactionalTransport.cs:118-148 | below the ceiling the message is dispatched exactly when no started subscriber threw; the started exception is rethrown, otherwise AfterDispatch's choice; the dictionaries are unchanged |
| Processing.ProcessMessageReleasesNothing | CWServiceBus.Core/Transport/TransactionalTransport.cs:118-148 | ProcessMessage releases no permit itself |
| Processing.ProcessMessageRunEvents | CWServiceBus.Core/Transport/TransactionalTransport.cs:118-148 | besides the transport's ceiling events, ProcessMessage raises only started, received and finished |
| Processing.DecisionIgnoresCeilingEvents | CWServiceBus.Core/Transport/TransactionalTransport.cs:118-171 | what ProcessMessage throws and leaves in the dictionaries does not depend on the fault manager's events |
| Processing.SettleCounts | CWServiceBus.Core/Transport/TransactionalTransport.cs:81-109 | Process clears the failures on success, leaves them on abort, and otherwise counts the unwrapped original exception and reports it to FailedMessageProcessing; the permit is released unless the receive did it |
| Processing.PermitReleasedOnce | CWServiceBus.Core/Transport/TransactionalTransport.cs:86-108 | the permit is taken first and released exactly once per Process |
| Transactional.ReceiveAttempt | CWServiceBus.Core/Transport/TransactionalTransport.cs:88-90 | the attempt run inside the transaction keeps the two failure dictionaries consistent |
| Transactional.ProcessRun | CWServiceBus.Core/Transport/TransactionalTransport.cs:81-109 | a whole Process call keeps the two failure dictionaries consistent |
| Transactional.NoReleaseInProcessMessage | CWServiceBus.Core/Transport/TransactionalTransport.cs:118-148 | ProcessMessage never releases the admission permit |
| Transactional.PermitReleasedOncePerProcess | CWServiceBus.Core/Transport/TransactionalTransport.cs:86-108 | the permit is taken first and released exactly once, whatever the wrapper, the receiver and the subscribers do |
| Transactional.NothingReceivedProcessesNothing | CWServiceBus.Core/Transport/TransactionalTransport.cs:111-116 | a receive that yields nothing raises no transport event and only clears the empty message id |
| Transactional.CeilingGoesToFaultManager | CWServiceBus.Core/Transport/TransactionalTransport.cs:118-127 | a message at the ceiling goes to the fault manager with its last exception, is never passed to TransportMessageReceived, and its failure entries are removed |
| Transactional.DispatchOutcomes | CWServiceBus.Core/Transport/TransactionalTransport.cs:92-103 | below the ceiling a started exception is counted and nothing is dispatched; an abort leaves the failures alone; a handling exception is counted before a module exception; a clean run clears the failures |
| Transactional.TransactionalTransport.constructor | CWServiceBus.Core/Transport/TransactionalTransport.cs:10-11 | five retries, one worker thread configured, no failures and no workers |
| Transactional.TransactionalTransport.Start | CWServiceBus.Core/Transport/TransactionalTransport.cs:58-63 | the receiver is initialised once and the configured workers are started |
| Transactional.TransactionalTransport.ChangeNumberOfWorkerThreads | CWServiceBus.Core/Transport/TransactionalTransport.cs:35-56 | a negative target throws ArgumentOutOfRangeException and changes nothing; otherwise workers below the target keep running, every existing worker from the target on is asked to stop, and the list grows with running workers up to the target |
| Transactional.TransactionalTransport.AbortHandlingCurrentMessage | CWServiceBus.Core/Transport/TransactionalTransport.cs:234-236 | only the abort flag is set |
| Transactional.TransactionalTransport.Receive | CWServiceBus.Core/Transport/TransactionalTransport.cs:214-229 | the delivered message or null, and the permit released either way |
| Transactional.TransactionalTransport.HandledMaxRetries | CWServiceBus.Core/Transport/TransactionalTransport.cs:150-171 | at the ceiling the fault manager is told with the last exception and the entries go, as TakeAtCeiling says |
| Transactional.TransactionalTransport.ProcessMessage | CWServiceBus.Core/Transport/TransactionalTransport.cs:118-148 | the events, the exception thrown and the dictionaries are ProcessMessageRun's |
| Transactional.TransactionalTransport.ReceiveMessage | CWServiceBus.Core/Transport/TransactionalTransport.cs:111-116 | the events, the exception and the dictionaries are ReceiveAttempt's, and the permit has been released |
| Transactional.TransactionalTransport.Process | CWServiceBus.Core/Transport/TransactionalTransport.cs:81-109 | the events and the dictionaries are ProcessRun's and the permit count is restored |
| InProc.StartedExceptionIgnored | CWServiceBus.Core/InProc/InProcTransport.cs:61 | what a started subscriber throws does not change the outcome of ReceiveMessages |
| InProc.InProcOutcomes | CWServiceBus.Core/InProc/InProcTransport.cs:47-84 | started, received and finished come first and in order; a handling exception is reported unwrapped and rethrown in preference to a module exception; with none nothing is thrown or reported |
| InProc.InProcAbort | CWServiceBus.Core/InProc/InProcTransport.cs:34-37 | an abort exception from a subscriber is swallowed and nothing is reported; a subscriber asking to abort gets NotSupportedException, which is reported and rethrown |
| InProc.InProcRejectsNull | CWServiceBus.Core/InProc/InProcTransport.cs:51-59 | a null message array or header sequence throws ArgumentNullException, reported, before any transport event |
| InProc.InProcTransport.constructor | CWServiceBus.Core/InProc/InProcTransport.cs:9-17 | no event has been raised |
| InProc.InProcTransport.NumberOfWorkerThreads | CWServiceBus.Core/InProc/InProcTransport.cs:29-32 | always zero |
| InProc.InProcTransport.AbortHandlingCurrentMessage | CWServiceBus.Core/InProc/InProcTransport.cs:34-37 | always throws NotSupportedException |
| InProc.InProcTransport.Send | CWServiceBus.Core/InProc/InProcTransport.cs:39-42 | always throws NotSupportedException |
| InProc.InProcTransport.ReceiveMessages | CWServiceBus.Core/InProc/InProcTransport.cs:47-85 | the events raised and the exception rethrown are InProcRun's |
| Text.TrimStart | CWServiceBus.Core/SqlServer/SqlServerTransport.cs:43 | a suffix of the input whose removed prefix is all white space (every one of char.IsWhiteSpace's characters) and which does not start with white space |
| Text.TrimEnd | CWServiceBus.Core/SqlServer/SqlServerTransport.cs:43 | a prefix of the input whose removed suffix is all white space and which does not end with white space |
| Text.Trim | CWServiceBus.Core/SqlServer/SqlServerTransport.cs:43 | a slice of the input with only white space cut from both ends, neither starting nor ending with white space |
| Text.TrimPadded | CWServiceBus.Core/SqlServer/SqlServerTransport.cs:43 | a queue name padded with any white space on either side trims to exactly the name |
| Text.TrimStartPadded | CWServiceBus.Core/SqlServer/SqlServerTransport.cs:43 | leading white space before a name is removed and nothing more |
| Text.TrimEndPadded | CWServiceBus.Core/SqlServer/SqlServerTransport.cs:43 | trailing white space after a name is removed and nothing more |
| SqlServer.Chain | CWServiceBus.Core/SqlServer/SqlServerTransport.cs:658-666 | the exception first, then its inner exceptions, ending with one that has none |
| SqlServer.FormatStartsWithBlock | CWServiceBus.Core/SqlServer/SqlServerTransport.cs:660 | the error text starts with the exception's type, message and stack trace |
| SqlServer.FormatEndsWithChain | CWServiceBus.Core/SqlServer/SqlServerTransport.cs:658-666 | the error text ends with the error text of every exception down the inner chain |
| SqlServer.FormatEndsWithInnermost | CWServiceBus.Core/SqlServer/SqlServerTransport.cs:661-664 | the error text ends with the innermost exception's own block |
| SqlServer.FaultKeysDistinct | CWServiceBus.Core/SqlServer/SqlServerTransport.cs:698-712 | the eleven fault header keys are pairwise distinct |
| SqlServer.ExceptionHeaderKeys | CWServiceBus.Core/SqlServer/SqlServerTransport.cs:694-714 | the fault headers carry the keys in source order, the inner type only when there is an inner exception, no key twice |
| SqlServer.ExceptionHeaderValues | CWServiceBus.Core/SqlServer/SqlServerTransport.cs:694-714 | looked up by key the headers give the reason, the types, message, stack trace, original id, the listener queue under both address keys and the time of failure |
| SqlServer.ExceptionHeaderValuesWithInner | CWServiceBus.Core/SqlServer/SqlServerTransport.cs:701-702 | with an inner exception every key maps to its value and the inner type is present |
| SqlServer.ExceptionHeaderValuesWithoutInner | CWServiceBus.Core/SqlServer/SqlServerTransport.cs:701-702 | without an inner exception every key maps to its value and no inner type header exists |
| SqlServer.FirstFailing | CWServiceBus.Core/SqlServer/SqlServerTransport.cs:582-586 | the first destination whose insert fails, or the number of destinations when none does |
| SqlServer.FirstFailingFails | CWServiceBus.Core/SqlServer/SqlServerTransport.cs:582-586 | every insert before that position succeeds and the one at it fails |
| SqlServer.Inserts | CWServiceBus.Core/SqlServer/SqlServerTransport.cs:582-586 | spec function with no contract of its own: one insert per destination; its meaning is proved by InsertsAt and SendInsertsInOrder |
| SqlServer.InsertsAt | CWServiceBus.Core/SqlServer/SqlServerTransport.cs:582-586 | the j-th insert goes to the j-th destination with the same row |
| SqlServer.SendInsertsInOrder | CWServiceBus.Core/SqlServer/SqlServerTransport.cs:539-609 | every destination before the failing one gets the same row, with the fresh id and this queue as reply address, in list order; QueueNotFoundException exactly when the failing insert raised error 208, any other SQL error swallowed (the inserts are then rolled back: SendTransaction) |
| SqlServer.SendTransaction | CWServiceBus.Core/SqlServer/SqlServerTransport.cs:543-598 | the inserts run in RunInTransaction: outside a transaction it is committed exactly when every insert succeeded and rolled back exactly when one failed, and the failing insert's SqlException is rethrown |
| SqlServer.NestedSendLeavesTransaction | CWServiceBus.Core/SqlServer/SqlServerTransport.cs:543-598 | a Send inside a running transaction, such as a handler's, neither commits nor rolls back; the failing insert's exception still propagates |
| SqlServer.SendLosesMessageSilently | CWServiceBus.Core/SqlServer/SqlServerTransport.cs:599-608 | as written, a failing insert with an error other than 208 rolls back the Send's inserts, yet Send returns normally |
| SqlServer.DeadlockedSendIsLost | CWServiceBus.Core/SqlServer/SqlServerTransport.cs:599-608 | a deadlocked insert (error 1205) into the only destination is rolled back and not reported |
| SqlServer.SendFaultIntended | CWServiceBus.Core/SqlServer/SqlServerTransport.cs:599-608 | as intended, Send throws exactly when an insert failed; for error 208 it agrees with the code |
| SqlServer.IntendedSendReportsEveryLoss | CWServiceBus.Core/SqlServer/SqlServerTransport.cs:539-609 | with the intended handling a Send outside a transaction returns normally exactly when its inserts were committed, and throws exactly when they were rolled back |
| SqlServer.Notify | CWServiceBus.Core/SqlServer/SqlServerTransport.cs:676-692 | spec function with no contract of its own: a null exception sends nothing, otherwise the envelope goes out marked FaultNotification with the fault headers appended; its meaning is proved by FaultNotificationShape |
| SqlServer.FaultNotificationShape | CWServiceBus.Core/SqlServer/SqlServerTransport.cs:676-712 | the notification carries the original id, is a FaultNotification, and the error-table record keeps the original body and header strings |
| SqlServer.FaultRunEvents | CWServiceBus.Core/SqlServer/SqlServerTransport.cs:259-274 | reporting a fault only writes the error table, raises MessageFault and inserts into queues |
| SqlServer.FaultRunRaisesFault | CWServiceBus.Core/SqlServer/SqlServerTransport.cs:264-265 | reporting a fault always raises MessageFault with the envelope, the exception and the reason |
| SqlServer.FaultRunReleasesNothing | CWServiceBus.Core/SqlServer/SqlServerTransport.cs:259-274 | reporting a fault raises no permit event |
| SqlServer.Decode | CWServiceBus.Core/SqlServer/SqlServerTransport.cs:205-224 | the body is always deserialized, the headers only when the header string is not empty; a failure yields the body read so far |
| SqlServer.RowAttempt | CWServiceBus.Core/SqlServer/SqlServerTransport.cs:195-256 | the attempt for one row keeps the failure dictionaries consistent |
| SqlServer.SqlAttempt | CWServiceBus.Core/SqlServer/SqlServerTransport.cs:180-257 | the transaction callback keeps the failure dictionaries consistent |
| SqlServer.SqlProcessRun | CWServiceBus.Core/SqlServer/SqlServerTransport.cs:139-178 | one Process call keeps the failure dictionaries consistent |
| SqlServer.RowReportQuiet | CWServiceBus.Core/SqlServer/SqlServerTransport.cs:259-274 | a row's fault report raises no permit event and dispatches nothing |
| SqlServer.RowAttemptReleasesOnce | CWServiceBus.Core/SqlServer/SqlServerTransport.cs:239-243 | once a row is read the permit is released exactly once |
| SqlServer.SqlAttemptReleases | CWServiceBus.Core/SqlServer/SqlServerTransport.cs:239-243 | the callback releases the permit once when the reader ran and never when the wrapper failed first |
| SqlServer.SqlPermitReleasedOnce | CWServiceBus.Core/SqlServer/SqlServerTransport.cs:145-177 | each Process takes the permit first and releases it exactly once on every path |
| SqlServer.UndecodableNotRetried | CWServiceBus.Core/SqlServer/SqlServerTransport.cs:219-224 | an undecodable row goes to the error table and the fault destinations once with reason SerializationFailed, is never dispatched, nothing is thrown and no failure is counted |
| SqlServer.RowUndecodable | CWServiceBus.Core/SqlServer/SqlServerTransport.cs:219-224 | an undecodable row: the report, then the release, nothing thrown |
| SqlServer.SqlCeilingReported | CWServiceBus.Core/SqlServer/SqlServerTransport.cs:283-301 | a message at the ceiling is reported as ProcessingFailed with its last exception instead of being dispatched, and its failure entries go |
| SqlServer.RowAtCeiling | CWServiceBus.Core/SqlServer/SqlServerTransport.cs:283-301 | at the ceiling: release, started, the report, finished |
| SqlServer.SqlDispatchOutcomes | CWServiceBus.Core/SqlServer/SqlServerTransport.cs:303-321 | below the ceiling a started exception stops dispatch; an abort leaves the failures alone; other exceptions are counted against the row's id; a clean run clears them |
| SqlServer.ReadErrorCountedAgainstEmptyId | CWServiceBus.Core/SqlServer/SqlServerTransport.cs:234-238 | a read error is rethrown and counted against the empty message id |
| SqlServer.InjectOutcomes | CWServiceBus.Core/SqlServer/SqlServerTransport.cs:327-378 | ReceiveMessages raises only received, finished and failed; an abort returns normally; a handling exception is reported unwrapped and rethrown; null inputs throw ArgumentNullException |
| SqlServer.InsertAll | CWServiceBus.Core/SqlServer/SqlServerTransport.cs:582-586 | the inserts made before the first failing destination, and that destination's error |
| SqlServer.SqlServerTransport.constructor | CWServiceBus.Core/SqlServer/SqlServerTransport.cs:41-47 | the queue name is trimmed, the worker count stored, five retries, no failures, no workers, no fault destinations, not started |
| SqlServer.SqlServerTransport.Start | CWServiceBus.Core/SqlServer/SqlServerTransport.cs:88-107 | only the first successful Start creates the queue and starts the configured workers; a failed queue creation propagates and leaves it unstarted |
| SqlServer.SqlServerTransport.ChangeNumberOfWorkerThreads | CWServiceBus.Core/SqlServer/SqlServerTransport.cs:58-83 | a negative target throws ArgumentOutOfRangeException and changes nothing; otherwise workers below the target keep running, every existing worker from the target on is asked to stop, and the list grows with running workers up to the target |
| SqlServer.SqlServerTransport.ForwardFaultsTo | CWServiceBus.Core/SqlServer/SqlServerTransport.cs:668-674 | the fault destinations become the old ones plus each new one not already there |
| SqlServer.SqlServerTransport.AbortHandlingCurrentMessage | CWServiceBus.Core/SqlServer/SqlServerTransport.cs:445-448 | only the abort flag is set |
| SqlServer.SqlServerTransport.Send | CWServiceBus.Core/SqlServer/SqlServerTransport.cs:539-609 | the inserts are SendEvents of the envelope, the exception SendFault, and the envelope is stamped with the fresh id, the time and this queue |
| SqlServer.SqlServerTransport.SendEnvelope | CWServiceBus.Core/SqlServer/SqlServerTransport.cs:544-599 | the inserts and the stamped envelope of one Send |
| SqlServer.SqlServerTransport.SetExceptionHeaders | CWServiceBus.Core/SqlServer/SqlServerTransport.cs:694-714 | the fault headers are appended to the list, created if missing; a null exception throws NullReferenceException after the Reason header |
| SqlServer.SqlServerTransport.SendFailureMessage | CWServiceBus.Core/SqlServer/SqlServerTransport.cs:676-692 | the envelope becomes a FaultNotification with headers; throws exactly when the exception is null or the send failed |
| SqlServer.SqlServerTransport.WriteFailedMessage | CWServiceBus.Core/SqlServer/SqlServerTransport.cs:612-656 | one error-table record unless the insert fails, which is swallowed; an envelope without a ReturnAddress leaves a parameter unsupplied, so it gets no record |
| SqlServer.SqlServerTransport.ReportFault | CWServiceBus.Core/SqlServer/SqlServerTransport.cs:261-273 | the events are FaultRun's: the error record, MessageFault, the notification, every exception swallowed |
| SqlServer.SqlServerTransport.ReleasePermit | CWServiceBus.Core/SqlServer/SqlServerTransport.cs:239-243 | the permit goes back and the flag records it |
| SqlServer.SqlServerTransport.HandledMaxRetries | CWServiceBus.Core/SqlServer/SqlServerTransport.cs:380-403 | the decision, the last exception and the dictionaries are TakeAtCeiling's |
| SqlServer.SqlServerTransport.ProcessMessage | CWServiceBus.Core/SqlServer/SqlServerTransport.cs:276-322 | the events, exception and dictionaries are ProcessMessageRun's, with the ProcessingFailed fault report at the ceiling |
| SqlServer.SqlServerTransport.MaxRetriesReached | CWServiceBus.Core/SqlServer/SqlServerTransport.cs:285-300 | the ProcessingFailed fault report, then FinishedMessageProcessing |
| SqlServer.SqlServerTransport.Dispatch | CWServiceBus.Core/SqlServer/SqlServerTransport.cs:306-321 | received and finished are raised and AfterDispatch's exception thrown |
| SqlServer.SqlServerTransport.BuildMessage | CWServiceBus.Core/SqlServer/SqlServerTransport.cs:197-217 | a new envelope from the row's columns, empty IdForCorrelation, and the row's strings decoded |
| SqlServer.SqlServerTransport.ReceiveMessage | CWServiceBus.Core/SqlServer/SqlServerTransport.cs:180-257 | the events, exception and dictionaries are SqlAttempt's and the permit has been released |
| SqlServer.SqlServerTransport.ReceiveRow | CWServiceBus.Core/SqlServer/SqlServerTransport.cs:195-256 | the events, exception and dictionaries are RowAttempt's for the row |
| SqlServer.SqlServerTransport.ReceiveDecoded | CWServiceBus.Core/SqlServer/SqlServerTransport.cs:239-256 | the release, then ProcessMessage under the row's id as IdForCorrelation |
| SqlServer.SqlServerTransport.OnSerializationFailed | CWServiceBus.Core/SqlServer/SqlServerTransport.cs:259-274 | the fault run with reason SerializationFailed |
| SqlServer.SqlServerTransport.Process | CWServiceBus.Core/SqlServer/SqlServerTransport.cs:139-178 | the events and dictionaries are SqlProcessRun's and the permit count is restored |
| SqlServer.SqlServerTransport.ReceiveMessages | CWServiceBus.Core/SqlServer/SqlServerTransport.cs:327-378 | the events and the exception are InjectRun's under the database's fresh id; the permit and the failures are untouched |
| ServiceBroker.HandleAttempt | CWServiceBus.ServiceBroker/Transport/ServiceBrokerTransport.cs:153-180 | handling one received message keeps the failure dictionaries consistent |
| ServiceBroker.BrokerReceiveAttempt | CWServiceBus.ServiceBroker/Transport/ServiceBrokerTransport.cs:137-181 | the receive and what follows it keep the failure dictionaries consistent |
| ServiceBroker.BrokerAttempt | CWServiceBus.ServiceBroker/Transport/ServiceBrokerTransport.cs:113-115 | the transaction callback keeps the failure dictionaries consistent |
| ServiceBroker.BrokerProcessRun | CWServiceBus.ServiceBroker/Transport/ServiceBrokerTransport.cs:106-135 | a whole Process call keeps the failure dictionaries consistent |
| ServiceBroker.HandleAttemptEvents | CWServiceBus.ServiceBroker/Transport/ServiceBrokerTransport.cs:153-180 | a handled message ends its conversation last and only there, releases no permit, and is dispatched only when it is a bus envelope that deserializes |
| ServiceBroker.BrokerPermitReleasedOnce | CWServiceBus.ServiceBroker/Transport/ServiceBrokerTransport.cs:111-134 | the permit is taken once and released exactly once per Process on every path |
| ServiceBroker.ConversationEndedOnce | CWServiceBus.ServiceBroker/Transport/ServiceBrokerTransport.cs:177-180 | a received message has its conversation ended exactly once and last, whatever happens; without a message none is ended (whether it stays ended is ConversationEndCommitsOnlyOnSuccess) |
| ServiceBroker.ConversationEndCommitsOnlyOnSuccess | CWServiceBus.ServiceBroker/Transport/ServiceBrokerTransport.cs:106-179 | the RECEIVE and the END CONVERSATION share Process's transaction: it is committed exactly when the attempt throws nothing and rolled back, message and conversation restored, exactly when it throws |
| ServiceBroker.OtherMessagesOnlyEndConversation | CWServiceBus.ServiceBroker/Transport/ServiceBrokerTransport.cs:156 | a message of another type is consumed with only the end of its conversation |
| ServiceBroker.ReceivedEventsAreHandled | CWServiceBus.ServiceBroker/Transport/ServiceBrokerTransport.cs:144-154 | a received message's events are the released permit followed by its handling |
| ServiceBroker.OnlyTransportMessagesDispatched | CWServiceBus.ServiceBroker/Transport/ServiceBrokerTransport.cs:155-175 | TransportMessageReceived is raised only for a bus envelope that deserializes |
| ServiceBroker.IdsDefaulted | CWServiceBus.ServiceBroker/Transport/ServiceBrokerTransport.cs:167-175 | an envelope is processed under its own id or else the conversation handle, its correlation id defaults to that id, and failures are counted against it |
| ServiceBroker.SerializationFailureSwallowed | CWServiceBus.ServiceBroker/Transport/ServiceBrokerTransport.cs:159-165 | an undeserializable body goes to the fault manager when there is one and is consumed: nothing thrown, dispatched or counted |
| ServiceBroker.BrokerCeiling | CWServiceBus.ServiceBroker/Transport/ServiceBrokerTransport.cs:199-212 | at the ceiling the fault manager, if any, gets the last exception, the entries go, nothing is thrown or dispatched |
| ServiceBroker.SameDecisionAsTransactional | CWServiceBus.ServiceBroker/Transport/ServiceBrokerTransport.cs:194-233 | for a deserialized envelope what is thrown and the dictionaries afterwards equal the generic transactional transport's |
| ServiceBroker.ReceiveErrorRethrown | CWServiceBus.ServiceBroker/Transport/ServiceBrokerTransport.cs:141-143 | a receive error is rethrown, counted against the empty id and reported |
| ServiceBroker.Accepted | CWServiceBus.ServiceBroker/Transport/ServiceBrokerTransport.cs:374-376 | at most the number of destinations |
| ServiceBroker.AcceptedFacts | CWServiceBus.ServiceBroker/Transport/ServiceBrokerTransport.cs:374-376 | every destination before that position accepts the message and the one at it throws |
| ServiceBroker.SendsAt | CWServiceBus.ServiceBroker/Transport/ServiceBrokerTransport.cs:374-376 | one SendOne per destination, in order, all with the same payload |
| ServiceBroker.SendEach | CWServiceBus.ServiceBroker/Transport/ServiceBrokerTransport.cs:374-387 | the sends before the first throwing one, that exception, and the envelope's Id left as the last handle |
| ServiceBroker.ServiceBrokerTransport.constructor | CWServiceBus.ServiceBroker/Transport/ServiceBrokerTransport.cs:40-47 | listener queue, return address, fault manager and worker count as given, five retries, no failures, no workers |
| ServiceBroker.ServiceBrokerTransport.Start | CWServiceBus.ServiceBroker/Transport/ServiceBrokerTransport.cs:79-90 | creates the service and queue, then appends the configured number of new running workers after the old ones; a failing transaction propagates before any worker starts |
| ServiceBroker.ServiceBrokerTransport.ChangeNumberOfWorkerThreads | CWServiceBus.ServiceBroker/Transport/ServiceBrokerTransport.cs:56-77 | a negative target throws ArgumentOutOfRangeException and changes nothing; otherwise workers below the target keep running, every existing worker from the target on is asked to stop, and the list grows with running workers up to the target |
| ServiceBroker.ServiceBrokerTransport.AbortHandlingCurrentMessage | CWServiceBus.ServiceBroker/Transport/ServiceBrokerTransport.cs:291-293 | only the abort flag is set |
| ServiceBroker.ServiceBrokerTransport.ReleasePermit | CWServiceBus.ServiceBroker/Transport/ServiceBrokerTransport.cs:144-147 | the permit goes back and the flag records it |
| ServiceBroker.ServiceBrokerTransport.HandledMaxRetries | CWServiceBus.ServiceBroker/Transport/ServiceBrokerTransport.cs:235-256 | the decision, the last exception and the dictionaries are TakeAtCeiling's |
| ServiceBroker.ServiceBrokerTransport.ProcessMessage | CWServiceBus.ServiceBroker/Transport/ServiceBrokerTransport.cs:194-233 | the events, exception and dictionaries are ProcessMessageRun's with the fault manager's ceiling event |
| ServiceBroker.ServiceBrokerTransport.OnSerializationFailed | CWServiceBus.ServiceBroker/Transport/ServiceBrokerTransport.cs:183-192 | the fault manager is told when there is one |
| ServiceBroker.ServiceBrokerTransport.HandleMessage | CWServiceBus.ServiceBroker/Transport/ServiceBrokerTransport.cs:153-180 | the events, exception and dictionaries are HandleAttempt's |
| ServiceBroker.ServiceBrokerTransport.ReceiveMessage | CWServiceBus.ServiceBroker/Transport/ServiceBrokerTransport.cs:137-181 | the events, exception and dictionaries are BrokerReceiveAttempt's and the permit has been released |
| ServiceBroker.ServiceBrokerTransport.Process | CWServiceBus.ServiceBroker/Transport/ServiceBrokerTransport.cs:106-135 | the events and dictionaries are BrokerProcessRun's and the permit count is restored |
| ServiceBroker.ServiceBrokerTransport.Send | CWServiceBus.ServiceBroker/Transport/ServiceBrokerTransport.cs:367-390 | stamps the time and return address, serializes once, sends that payload to each destination until one throws, and leaves the last handle as the Id |
| SqlTransactions.NestedStops | CWServiceBus.Core/SqlServer/SqlServerTransactionWrapper.cs:46 | once an exception escapes the callback's nested calls, later ones are not made |
| SqlTransactions.ThrownIsOutcome | CWServiceBus.Core/SqlServer/SqlServerTransactionWrapper.cs:26-92 | RunInTransaction rethrows exactly what the callback tree throws |
| SqlTransactions.LevelRestored | CWServiceBus.Core/SqlServer/SqlServerTransactionWrapper.cs:26-92 | every call leaves loopLevel as it found it |
| SqlTransactions.NestedCallsNeverEnd | CWServiceBus.Core/SqlServer/SqlServerTransactionWrapper.cs:48-89 | a call entered with loopLevel above zero never commits, rolls back, disposes or closes, and keeps an existing connection and transaction |
| SqlTransactions.InsideTransactionTransparent | CWServiceBus.Core/SqlServer/SqlServerTransactionWrapper.cs:32-46 | inside an open transaction a nested call opens and begins nothing, hands every callback the ambient transaction, and leaves the thread-static state unchanged |
| SqlTransactions.TopLevelTransaction | CWServiceBus.Core/SqlServer/SqlServerTransactionWrapper.cs:26-92 | a top-level call opens a connection, begins a transaction, hands it to the callback, commits it when nothing was thrown and rolls it back otherwise, then disposes it and closes the connection |
| SqlTransactions.TopLevelCleansUp | CWServiceBus.Core/SqlServer/SqlServerTransactionWrapper.cs:64-90 | whatever the callback tree, the top-level call leaves no connection or transaction behind and nothing before its own end events ends anything |
| SqlTransactions.SkippedTopLevelCommitsNestedWork | CWServiceBus.Core/SqlServer/SqlServerTransactionWrapper.cs:32-53 | with skipOpenConnection at the top, the callback gets no transaction, and a nested call that opens one leaves it for the top-level call to commit and close |
| SqlTransactions.SqlServerTransactionWrapper.constructor | CWServiceBus.Core/SqlServer/SqlServerTransactionWrapper.cs:18-21 | nothing open and loopLevel zero |
| SqlTransactions.SqlServerTransactionWrapper.Open | CWServiceBus.Core/SqlServer/SqlServerTransactionWrapper.cs:28-43 | the state and events are those Enter gives |
| SqlTransactions.SqlServerTransactionWrapper.Close | CWServiceBus.Core/SqlServer/SqlServerTransactionWrapper.cs:48-89 | the state and events are those Leave gives |
| SqlTransactions.SqlServerTransactionWrapper.RunInTransaction | CWServiceBus.Core/SqlServer/SqlServerTransactionWrapper.cs:26-92 | the state, events and exception are RunCall's |
| SqlTransactions.SqlServerTransactionWrapper.RunCallback | CWServiceBus.Core/SqlServer/SqlServerTransactionWrapper.cs:46 | the state, events and exception are those of the callback's nested calls |
| BrokerTransactions.BrokerNestedStops | CWServiceBus.Core/ServiceBroker/SqlServerTransactionWrapper.cs:45 | once an exception escapes the callback's nested calls, later ones are not made |
| BrokerTransactions.BrokerThrownIsOutcome | CWServiceBus.Core/ServiceBroker/SqlServerTransactionWrapper.cs:24-91 | RunInTransaction rethrows exactly what the callback tree throws |
| BrokerTransactions.HeldRestored | CWServiceBus.Core/ServiceBroker/SqlServerTransactionWrapper.cs:26-89 | every call hands back the connection and transaction as it found them |
| BrokerTransactions.HeldTransactionTransparent | CWServiceBus.Core/ServiceBroker/SqlServerTransactionWrapper.cs:26-52 | with a connection and transaction held a call opens, begins, commits and closes nothing, hands every callback the held transaction, and changes nothing |
| BrokerTransactions.OutermostTransaction | CWServiceBus.Core/ServiceBroker/SqlServerTransactionWrapper.cs:24-91 | the outermost call opens a connection, begins a transaction, hands it to the callback, commits it when nothing was thrown and rolls it back otherwise, disposes it, closes the connection and holds nothing after |
| BrokerTransactions.LeafCallOutcome | CWServiceBus.Core/ServiceBroker/SqlServerTransactionWrapper.cs:24-91 | a top-level callback that makes no nested call: the wrapper rethrows its exception, commits exactly when it threw nothing and rolls back exactly when it threw |
| BrokerTransactions.CallbackGetsTransaction | CWServiceBus.Core/ServiceBroker/SqlServerTransactionWrapper.cs:37-45 | the callback never gets a null transaction |
| BrokerTransactions.BrokerTransactionWrapper.constructor | CWServiceBus.Core/ServiceBroker/SqlServerTransactionWrapper.cs:16-19 | nothing held |
| BrokerTransactions.BrokerTransactionWrapper.Open | CWServiceBus.Core/ServiceBroker/SqlServerTransactionWrapper.cs:26-42 | the state and events are those Acquire gives |
| BrokerTransactions.BrokerTransactionWrapper.Close | CWServiceBus.Core/ServiceBroker/SqlServerTransactionWrapper.cs:47-89 | the state and events are those Release gives |
| BrokerTransactions.BrokerTransactionWrapper.RunInTransaction | CWServiceBus.Core/ServiceBroker/SqlServerTransactionWrapper.cs:24-91 | the state, events and exception are RunBroker's |
| BrokerTransactions.BrokerTransactionWrapper.RunCallback | CWServiceBus.Core/ServiceBroker/SqlServerTransactionWrapper.cs:45 | the state, events and exception are those of the callback's nested calls |
| Subscriptions.RemoveFirstFacts | CWServiceBus.Core/Unicast/InMemorySubscriptionStorage.cs:19 | List.Remove keeps every other address, changes the list exactly when the address is in it, and on a duplicate-free list removes it entirely |
| Subscriptions.SubscribeAllFacts | CWServiceBus.Core/Unicast/InMemorySubscriptionStorage.cs:6-14 | every listed type is known and lists the address; other types are untouched; no other address is added or dropped; lists stay duplicate-free |
| Subscriptions.SubscribeIdempotent | CWServiceBus.Core/Unicast/InMemorySubscriptionStorage.cs:6-14 | subscribing twice to the same types is the same as subscribing once |
| Subscriptions.SubscribedIsFixed | CWServiceBus.Core/Unicast/InMemorySubscriptionStorage.cs:8-12 | types that already list the address are left as they are |
| Subscriptions.UnsubscribeAllFacts | CWServiceBus.Core/Unicast/InMemorySubscriptionStorage.cs:16-21 | the known types are unchanged; no listed type lists the address on duplicate-free lists; other types and other addresses are untouched |
| Subscriptions.SubscribersHas | CWServiceBus.Core/Unicast/InMemorySubscriptionStorage.cs:23-31 | an address is returned exactly when some requested type lists it |
| Subscriptions.SubscribersNone | CWServiceBus.Core/Unicast/InMemorySubscriptionStorage.cs:23-31 | types with no subscribers give an empty result |
| Subscriptions.SubscribersConcat | CWServiceBus.Core/Unicast/InMemorySubscriptionStorage.cs:25-28 | asking for more types appends their lists in order |
| Subscriptions.SubscribeThenQuery | CWServiceBus.Core/Unicast/InMemorySubscriptionStorage.cs:6-31 | a subscription is returned by the next query and an unsubscription ends it |
| Subscriptions.InMemorySubscriptionStorage.constructor | CWServiceBus.Core/Unicast/InMemorySubscriptionStorage.cs:36 | the storage starts empty |
| Subscriptions.InMemorySubscriptionStorage.Subscribe | CWServiceBus.Core/Unicast/InMemorySubscriptionStorage.cs:6-14 | the storage becomes SubscribeAll of the old one and stays duplicate-free |
| Subscriptions.InMemorySubscriptionStorage.Unsubscribe | CWServiceBus.Core/Unicast/InMemorySubscriptionStorage.cs:16-21 | the storage becomes UnsubscribeAll of the old one and stays duplicate-free |
| Subscriptions.InMemorySubscriptionStorage.GetSubscriberServicesForMessage | CWServiceBus.Core/Unicast/InMemorySubscriptionStorage.cs:23-31 | the lists of the requested known types concatenated; an address is in it exactly when a requested type lists it |
| Envelopes.TransportMessage.constructor | CWServiceBus.Core/Transport/TransportMessage.cs:16-115 | every property null or default, TimeToBeReceived at its maximum |
| Envelopes.TransportMessage.SetBody | CWServiceBus.Core/Transport/TransportMessage.cs:86-89 | Body is the array and Messages a list of the same elements; a null array still becomes Body, then ArgumentNullException leaves Messages as it was; no other field changes |
| Envelopes.TransportMessage.SetMessages | CWServiceBus.Core/Transport/TransportMessage.cs:112-115 | Messages is replaced, and Body and every other field left as they were |
| Envelopes.TransportMessage.SetTimeToBeReceived | CWServiceBus.Core/Transport/TransportMessage.cs:61-64 | only TimeToBeReceived changes |
| Envelopes.TransportMessage.CopyMessagesToBody | CWServiceBus.Core/Transport/TransportMessage.cs:121-124 | Body becomes a new array with Messages in order; a null Messages throws NullReferenceException and changes nothing; no other field changes |
| Envelopes.InjectedMessage | CWServiceBus.Core/InProc/InProcTransport.cs:51-59 | the envelope has the given ids and time, intent Send, the caller's array as Body and the headers, and no return address (so a Reply to it throws NullReferenceException); a null array or header sequence throws ArgumentNullException and yields no envelope |
| MessageContexts.KeysOf | CWServiceBus.Core/Unicast/MessageContext.cs:19 | the keys of the header list, in order |
| MessageContexts.ToDictionaryFacts | CWServiceBus.Core/Unicast/MessageContext.cs:19 | ToDictionary succeeds exactly when the keys are distinct and then maps each listed key to its value; a repeated key throws ArgumentException |
| MessageContexts.HeaderDictionary | CWServiceBus.Core/Unicast/MessageContext.cs:17-20 | a null header list throws ArgumentNullException; otherwise ToDictionary's dictionary or its error |
| MessageContexts.MessageContext.constructor | CWServiceBus.Core/Unicast/MessageContext.cs:12-15 | the context wraps the given envelope |
| MessageContexts.MessageContext.Headers | CWServiceBus.Core/Unicast/MessageContext.cs:17-20 | built exactly when the envelope has headers with distinct keys, then holding each header's value under its key |
| MessageContexts.MessageContext.MessageId | CWServiceBus.Core/Unicast/MessageContext.cs:22-25 | the Guid parsed from IdForCorrelation, not from Id |
| MessageContexts.MessageContext.ReturnAddress | CWServiceBus.Core/Unicast/MessageContext.cs:27-30 | the envelope's return address, or NullReferenceException when the envelope has none |
| MessageContexts.MessageContext.TimeSent | CWServiceBus.Core/Unicast/MessageContext.cs:32-35 | the envelope's send time |
| MessageContexts.MessageIdIgnoresId | CWServiceBus.Core/Unicast/MessageContext.cs:22-25 | envelopes with the same IdForCorrelation give the same MessageId whatever their Ids |
| MessageContexts.BusHeaders.constructor | CWServiceBus.Core/Unicast/UnicastMessageBus.cs:326-340 | no outgoing headers and no current message |
| MessageContexts.BusHeaders.ContextHeaders | CWServiceBus.Core/Unicast/MessageContext.cs:17-20 | none without a current message, else that message's Headers dictionary |
| HeaderExtensions.GetHeader | CWServiceBus.Core/MessageBusExtensionsMethods.cs:17-20 | the current message's value for the key or "" when it has none; no current message throws NullReferenceException, a null or repeated-key header list throws |
| HeaderExtensions.CopyInto | CWServiceBus.Core/MessageBusExtensionsMethods.cs:11-14 | every key of the dictionary gets its value in the outgoing headers and the others stay |
| HeaderExtensions.CopyHeadersFromRequest | CWServiceBus.Core/MessageBusExtensionsMethods.cs:5-15 | nothing happens without a current message; a failing Headers read throws before anything is copied; otherwise the request's headers overwrite and each reads back through GetHeader |
| HeaderExtensions.SetHeader | CWServiceBus.Core/MessageBusExtensionsMethods.cs:22-25 | the outgoing header is set, overwriting, and the value returned |
| InterfaceHeaderExtensions.CopyHeaderFromRequest | CWServiceBus.Interfaces/MessageBusExtensionsMethods.cs:3-7 | no current message throws NullReferenceException; otherwise as the core version |
| InterfaceHeaderExtensions.GetHeader | CWServiceBus.Interfaces/MessageBusExtensionsMethods.cs:9-11 | the same meaning as the core GetHeader |
| InterfaceHeaderExtensions.SetHeader | CWServiceBus.Interfaces/MessageBusExtensionsMethods.cs:13-15 | the outgoing header is set, overwriting, and the value returned |
| ServiceBusHeaderExtensions.CopyHeaderFromRequest | CWServiceBus.Interfaces/ServiceBusExtensionsMethods.cs:3-7 | no current message throws NullReferenceException; otherwise the request's headers overwrite the outgoing ones |
| ServiceBusHeaderExtensions.GetHeader | CWServiceBus.Interfaces/ServiceBusExtensionsMethods.cs:9-11 | the same meaning as the core GetHeader |
| ServiceBusHeaderExtensions.SetHeader | CWServiceBus.Interfaces/ServiceBusExtensionsMethods.cs:13-15 | the outgoing header is set, overwriting, and the value returned |
| Unicast.GetMappedTypeFor | CWServiceBus.Core/Reflection/MessageMapper.cs:225-239 | for a well-formed mapper a class maps to itself or to an interface |
| Unicast.MessageInterfaces | CWServiceBus.Core/Unicast/UnicastMessageBus.cs:363-366 | exactly the interfaces of the type that the mapper calls message types |
| Unicast.FullTypesFacts | CWServiceBus.Core/Unicast/UnicastMessageBus.cs:353-370 | the publish closure has no duplicates, starts with the first message's type, and holds exactly the messages' types and their message-type interfaces |
| Unicast.FullTypesSkipsRepeatedType | CWServiceBus.Core/Unicast/UnicastMessageBus.cs:359-361 | a message of a type already seen adds nothing |
| Unicast.FullTypesPrefix | CWServiceBus.Core/Unicast/UnicastMessageBus.cs:357-362 | every message's own type is in the closure |
| Unicast.SendValidation | CWServiceBus.Core/Unicast/UnicastMessageBus.cs:201-210 | a send is rejected with InvalidOperationException, before the transport is called, exactly when there is no message or no destination; otherwise the transport gets the envelope and MessageSent is raised exactly when it did not throw |
| Unicast.SendAllValidation | CWServiceBus.Core/Unicast/UnicastMessageBus.cs:212-225 | a destination list is rejected exactly when it is empty or holds an empty entry; otherwise the transport gets the envelope and that list |
| Unicast.MessageTypesOf | CWServiceBus.Core/Unicast/UnicastMessageBus.cs:84-85 | one subscription key per closure type, named by its type name |
| Unicast.PublishWithoutSubscribersThrows | CWServiceBus.Core/Unicast/UnicastMessageBus.cs:83-88 | with no subscriber to any closure type Publish throws InvalidOperationException and the transport is never called |
| Unicast.PublishReachesSubscribers | CWServiceBus.Core/Unicast/UnicastMessageBus.cs:83-88 | every subscriber of a closure type is among the destinations of the single transport call |
| Unicast.ListingReadsBack | CWServiceBus.Core/Unicast/UnicastMessageBus.cs:231 | the header list a bus sends reads back, through MessageContext, as the bus's outgoing dictionary |
| Unicast.ListHeaders | CWServiceBus.Core/Unicast/UnicastMessageBus.cs:231 | a listing of the outgoing dictionary: each key once with its value |
| Unicast.HandlingFailure | CWServiceBus.Core/Unicast/UnicastMessageBus.cs:268-274 | TransportMessageHandlingFailedException around the exception, a TargetInvocationException replaced by its inner exception |
| Unicast.ControlMessagesNotDispatched | CWServiceBus.Core/Unicast/UnicastMessageBus.cs:248-307 | a Subscribe or Unsubscribe control message is not dispatched and throws nothing: its return address is subscribed to or unsubscribed from the type in its SubscriptionMessageType header, and with no storage it is dropped |
| Unicast.OnlySendAndPublishDispatched | CWServiceBus.Core/Unicast/UnicastMessageBus.cs:253-279 | otherwise the storage is untouched, exactly Send and Publish envelopes are dispatched, a dispatch failure surfaces as HandlingFailure, and MessageHandled ends a run that did not throw |
| Unicast.StartEventsOrder | CWServiceBus.Core/Unicast/UnicastMessageBus.cs:425-429 | the transport is started first, then each additional listener once, in order |
| Unicast.StartsBeforeFaultFacts | CWServiceBus.Core/Unicast/UnicastMessageBus.cs:425-429 | every Start call before the first throwing one returns, and the one at that position throws |
| Unicast.StartRunFacts | CWServiceBus.Core/Unicast/UnicastMessageBus.cs:419-432 | Start throws exactly when some Start call throws, and then throws the first one's exception; the transport is started first, and listener i is started exactly when no earlier call threw |
| Unicast.Destination | CWServiceBus.Core/Unicast/UnicastMessageBus.cs:395-414 | a mapped type gives its address; an unmapped class is retried once under its mapped type when that differs; otherwise there is none |
| Unicast.UnicastMessageBus.constructor | CWServiceBus.Core/Unicast/UnicastMessageBus.cs:26-32 | the mapper, storage and listeners as given, an empty routing table, not started |
| Unicast.UnicastMessageBus.MapMessageTypeToAddress | CWServiceBus.Core/Unicast/UnicastMessageBus.cs:380-387 | the type routes to the address, overwriting, and the lookup finds it |
| Unicast.UnicastMessageBus.GetDestinationServiceForMessage | CWServiceBus.Core/Unicast/UnicastMessageBus.cs:395-414 | any address found is one of the routing table's |
| Unicast.UnicastMessageBus.MapTransportMessageFor | CWServiceBus.Core/Unicast/UnicastMessageBus.cs:227-235 | the envelope gets the body, the sender's identity, a listing of the outgoing headers and the largest time to be received |
| Unicast.UnicastMessageBus.SendMessageToAll | CWServiceBus.Core/Unicast/UnicastMessageBus.cs:212-225 | the transport calls and the exception are SendAllRun's for the envelope built |
| Unicast.UnicastMessageBus.SendMessage | CWServiceBus.Core/Unicast/UnicastMessageBus.cs:201-210 | the transport calls and the exception are SendOneRun's for the envelope built |
| Unicast.UnicastMessageBus.Publish | CWServiceBus.Core/Unicast/UnicastMessageBus.cs:70-89 | with no messages the created instance is published instead; the calls and the exception are PublishRun's |
| Unicast.UnicastMessageBus.PublishBody | CWServiceBus.Core/Unicast/UnicastMessageBus.cs:83-88 | the calls and the exception are PublishRun's |
| Unicast.UnicastMessageBus.Send | CWServiceBus.Core/Unicast/UnicastMessageBus.cs:158-162 | a null array throws ArgumentNullException; otherwise the message goes where the first message's type routes, through SendOneRun |
| Unicast.UnicastMessageBus.SendTo | CWServiceBus.Core/Unicast/UnicastMessageBus.cs:169-172 | SendOneRun to the given destination |
| Unicast.UnicastMessageBus.SendCorrelated | CWServiceBus.Core/Unicast/UnicastMessageBus.cs:179-182 | SendOneRun to the destination with the Guid's text as CorrelationId |
| Unicast.UnicastMessageBus.SendLocal | CWServiceBus.Core/Unicast/UnicastMessageBus.cs:148-151 | always throws NotImplementedException |
| Unicast.UnicastMessageBus.Reply | CWServiceBus.Core/Unicast/UnicastMessageBus.cs:189-194 | without a current message throws InvalidOperationException; a current message without a return address throws NullReferenceException from the context; otherwise SendOneRun to its return address |
| Unicast.UnicastMessageBus.SendSubscription | CWServiceBus.Core/Unicast/UnicastMessageBus.cs:101-110 | the SubscriptionMessageType header names the type and a ControlMessage goes to the publisher, looked up when none is given |
| Unicast.UnicastMessageBus.Subscribe | CWServiceBus.Core/Unicast/UnicastMessageBus.cs:101-110 | SendSubscription with intent Subscribe |
| Unicast.UnicastMessageBus.Unsubscribe | CWServiceBus.Core/Unicast/UnicastMessageBus.cs:127-136 | SendSubscription with intent Unsubscribe |
| Unicast.UnicastMessageBus.HandleControlMessage | CWServiceBus.Core/Unicast/UnicastMessageBus.cs:282-307 | the decision, the exception and the storage afterwards are ControlRun's for the current message |
| Unicast.UnicastMessageBus.TransportMessageReceived | CWServiceBus.Core/Unicast/UnicastMessageBus.cs:242-280 | the outgoing headers are cleared, the envelope becomes the current message, and the events, exception and storage are ReceiveRun's |
| Unicast.UnicastMessageBus.HandleBody | CWServiceBus.Core/Unicast/UnicastMessageBus.cs:247-279 | the rest of ReceiveRun after MessageReceived |
| Unicast.UnicastMessageBus.Dispatch | CWServiceBus.Core/Unicast/UnicastMessageBus.cs:254-274 | the events and the exception are DispatchRun's |
| Unicast.UnicastMessageBus.Start | CWServiceBus.Core/Unicast/UnicastMessageBus.cs:419-432 | a started bus does nothing; otherwise the calls and the exception are StartRun's, and the bus becomes started exactly when no Start call threw, so a later Start after a failure tries again |
| Unicast.GetFullTypes | CWServiceBus.Core/Unicast/UnicastMessageBus.cs:353-370 | the closure FullTypes describes |
| Unicast.AddMessageInterfaces | CWServiceBus.Core/Unicast/UnicastMessageBus.cs:363-366 | the message-type interfaces not yet listed are appended |
| ServiceUnicast.SenderRunFacts | CWServiceBus.Core/Unicast/UnicastServiceBus.cs:148-161 | the sender is called in order for a prefix of the destinations with the same envelope; every call but the last returned, the last call's exception is what the loop throws, and when nothing is thrown every destination was sent to |
| ServiceUnicast.SenderRunStopsAfterPrefix | CWServiceBus.Core/Unicast/UnicastServiceBus.cs:148-150 | once a prefix of the destinations throws, the later destinations change nothing |
| ServiceUnicast.SenderRunThrowsIff | CWServiceBus.Core/Unicast/UnicastServiceBus.cs:148-150 | the loop throws exactly when the sender throws for some destination |
| ServiceUnicast.SenderRunStopsAtFirstFault | CWServiceBus.Core/Unicast/UnicastServiceBus.cs:148-150 | the first destination the sender throws for is the last one sent to, and its exception is rethrown |
| ServiceUnicast.ServiceSendValidation | CWServiceBus.Core/Unicast/UnicastServiceBus.cs:129-137 | a send to one destination is rejected with InvalidOperationException before the sender is called exactly when there are no messages or the destination is empty; otherwise that destination alone gets the envelope once |
| ServiceUnicast.ServiceSendAllValidation | CWServiceBus.Core/Unicast/UnicastServiceBus.cs:139-149 | a destination list is rejected with InvalidOperationException before any send exactly when it is empty or holds an empty entry; otherwise the first destination is sent to first |
| ServiceUnicast.ServicePublishWithoutSubscribersThrows | CWServiceBus.Core/Unicast/UnicastServiceBus.cs:22-38 | publishing types nobody subscribes to throws InvalidOperationException and sends nothing |
| ServiceUnicast.ServicePublishReachesSubscribers | CWServiceBus.Core/Unicast/UnicastServiceBus.cs:33-38 | every subscriber of a type in the publish closure gets the envelope, and the publish returns normally when the sender never throws |
| ServiceUnicast.ServiceDestination | CWServiceBus.Core/Unicast/UnicastServiceBus.cs:227-248 | an unmapped type has no destination, and any destination found is a value of the lookup |
| ServiceUnicast.DestinationsCompared | CWServiceBus.Core/Unicast/UnicastServiceBus.cs:227-248 | against the message bus's routing: the same entry for an interface or a type the mapper leaves alone; for a class the mapper sends to an interface, the interface's entry or none; an unmapped type never has a destination |
| ServiceUnicast.DestinationsDiffer | CWServiceBus.Core/Unicast/UnicastServiceBus.cs:241-245 | two examples, one per lookup rule (own entry only, interface entry only), where the message bus routes a class and this bus does not |
| ServiceUnicast.Deliver | CWServiceBus.Core/Unicast/UnicastServiceBus.cs:148-161 | the loop sends the envelope to the destinations in list order, stopping at and rethrowing the first exception of the sender, exactly as SenderRun describes |
| ServiceUnicast.UnicastServiceBus.constructor | CWServiceBus.Core/Unicast/UnicastServiceBus.cs:11-20 | the bus holds the given type graph, mapper, storage and identity, its routing lookup is empty, and nothing has been sent |
| ServiceUnicast.UnicastServiceBus.GetDestinationServiceForMessage | CWServiceBus.Core/Unicast/UnicastServiceBus.cs:227-248 | the lookup is always empty, so no type has a destination |
| ServiceUnicast.UnicastServiceBus.GetFullTypes | CWServiceBus.Core/Unicast/UnicastServiceBus.cs:205-220 | the loop computes the publish closure of the messages |
| ServiceUnicast.UnicastServiceBus.MapTransportMessageFor | CWServiceBus.Core/Unicast/UnicastServiceBus.cs:164-171 | the envelope gets the messages, the sender's identity, an empty header list and the largest time to be received; its correlation id and intent are left alone |
| ServiceUnicast.UnicastServiceBus.SendMessageToAll | CWServiceBus.Core/Unicast/UnicastServiceBus.cs:139-162 | the trace grows by the validated sender run over the destinations, and its exception is what is thrown |
| ServiceUnicast.UnicastServiceBus.SendMessage | CWServiceBus.Core/Unicast/UnicastServiceBus.cs:129-137 | the trace grows by the one-destination run, a null message array counting as empty |
| ServiceUnicast.UnicastServiceBus.Publish | CWServiceBus.Core/Unicast/UnicastServiceBus.cs:22-39 | with no messages the created instance is published instead; the trace grows by the publish run, which throws without a storage |
| ServiceUnicast.UnicastServiceBus.PublishBody | CWServiceBus.Core/Unicast/UnicastServiceBus.cs:33-38 | with a storage, the subscribers of the closure's types are the destinations of the send |
| ServiceUnicast.UnicastServiceBus.Send | CWServiceBus.Core/Unicast/UnicastServiceBus.cs:104-107 | every call throws and sends nothing: a null array gives ArgumentNullException, any other gives InvalidOperationException, because no destination is ever found |
| ServiceUnicast.UnicastServiceBus.SendTo | CWServiceBus.Core/Unicast/UnicastServiceBus.cs:113-115 | the messages go to the given destination with intent Send and no correlation id |
| ServiceUnicast.UnicastServiceBus.SendCorrelated | CWServiceBus.Core/Unicast/UnicastServiceBus.cs:121-123 | as SendTo, with the Guid's text as correlation id |
| ServiceUnicast.UnicastServiceBus.Subscribe | CWServiceBus.Core/Unicast/UnicastServiceBus.cs:49-54 | returns normally and does nothing |
| ServiceUnicast.UnicastServiceBus.Unsubscribe | CWServiceBus.Core/Unicast/UnicastServiceBus.cs:84-86 | throws NotImplementedException |
| FastContainers.CallFactory | CWServiceBus.FastServiceLocator/FastContainerRegistration.cs:62-77 | calling the factory of a registration built from an instance throws NullReferenceException; otherwise it returns what the factory builds, and the registration is unchanged |
| FastContainers.InstanceRegistrationResolvesToIt | CWServiceBus.FastServiceLocator/FastContainerRegistration.cs:29-36 | a registration built from an instance resolves to it without calling a factory or changing |
| FastContainers.FactoryResultCached | CWServiceBus.FastServiceLocator/FastContainerRegistration.cs:70-77 | the first Resolve calls the factory and caches a non-null result; the second returns the same object without calling it |
| FastContainers.PerCallNeverCaches | CWServiceBus.FastServiceLocator/FastContainerRegistration.cs:38-63 | after InstancePerCall every Resolve calls the factory, returns its result and caches nothing |
| FastContainers.CloneResolvesAlike | CWServiceBus.FastServiceLocator/FastContainerRegistration.cs:13-18 | a clone of a live registration resolves exactly as the original would, cache included |
| FastContainers.DisposedRejectsEverything | CWServiceBus.FastServiceLocator/FastContainerRegistration.cs:86-92 | after Dispose, Resolve, Clone and InstancePerCall throw ObjectDisposedException and change nothing |
| FastContainers.DisposeIdempotent | CWServiceBus.FastServiceLocator/FastContainerRegistration.cs:101-117 | a second Dispose returns normally and does nothing |
| FastContainers.DisposalsAppend | CWServiceBus.FastServiceLocator/FastContainerRegistration.cs:107-110 | the disposals of two event sequences add up |
| FastContainers.ApplyDisposals | CWServiceBus.FastServiceLocator/FastContainerRegistration.cs:101-117 | one operation disposes the instance only on a registration not yet disposed, and then marks it disposed |
| FastContainers.DisposedAtMostOnce | CWServiceBus.FastServiceLocator/FastContainerRegistration.cs:94-117 | over any sequence of operations the instance is disposed at most once, never after the registration is disposed, and disposal is never undone |
| FastContainers.FastContainerRegistration.FromFactory | CWServiceBus.FastServiceLocator/FastContainerRegistration.cs:20-27 | a live registration with the factory, no instance, not per call and not disposed |
| FastContainers.FastContainerRegistration.FromInstance | CWServiceBus.FastServiceLocator/FastContainerRegistration.cs:29-36 | a live registration with the instance and no factory |
| FastContainers.FastContainerRegistration.Copy | CWServiceBus.FastServiceLocator/FastContainerRegistration.cs:13-18 | the copy shares the factory, the instance and the per-call flag and is not disposed |
| FastContainers.FastContainerRegistration.AssertNotDisposed | CWServiceBus.FastServiceLocator/FastContainerRegistration.cs:86-92 | throws ObjectDisposedException exactly when the registration is disposed |
| FastContainers.FastContainerRegistration.InstancePerCall | CWServiceBus.FastServiceLocator/FastContainerRegistration.cs:38-47 | a live registration becomes per-call; a disposed one throws ObjectDisposedException and is unchanged; no factory is called |
| FastContainers.FastContainerRegistration.Resolve | CWServiceBus.FastServiceLocator/FastContainerRegistration.cs:49-78 | a disposed registration throws; a per-call one calls the factory; otherwise the cached instance is returned, or the factory's result is returned and, when the factory succeeds, cached; the factory calls are traced |
| FastContainers.FastContainerRegistration.Call | CWServiceBus.FastServiceLocator/FastContainerRegistration.cs:62 | a registration built from an instance throws NullReferenceException; otherwise the factory's result, with one factory call traced and no state change |
| FastContainers.FastContainerRegistration.Clone | CWServiceBus.FastServiceLocator/FastContainerRegistration.cs:80-84 | a disposed registration throws; a live one returns a fresh registration with the same factory, per-call flag and cached instance, not disposed |
| FastContainers.FastContainerRegistration.Dispose | CWServiceBus.FastServiceLocator/FastContainerRegistration.cs:94-117 | the first call disposes a disposable cached instance, passing on what its Dispose throws, and marks the registration disposed; later calls do nothing |
| Metrics.NatToString | CWServiceBus.Core/Diagnostics/Metrics.cs:46 | a non-empty string of decimal digits |
| Metrics.ParseNatToString | CWServiceBus.Core/Diagnostics/Metrics.cs:46 | reading the digits back gives the number |
| Metrics.LongToString | CWServiceBus.Core/Diagnostics/Metrics.cs:46 | the digits of a long, after a minus sign exactly when it is negative |
| Metrics.ParseLongToString | CWServiceBus.Core/Diagnostics/Metrics.cs:46 | the text of every long reads back as that long |
| Metrics.Pad4 | CWServiceBus.Core/Diagnostics/Metrics.cs:49 | the fractional part of a rate is written as exactly four digits that read back as it |
| Metrics.ParseFormatRate | CWServiceBus.Core/Diagnostics/Metrics.cs:49 | a sample rate written with four decimals reads back as the same rate |
| Metrics.LongToStringLacks | CWServiceBus.Core/Diagnostics/Metrics.cs:46 | a long's text holds no colon, bar or newline |
| Metrics.ParseSuffixOf | CWServiceBus.Core/Diagnostics/Metrics.cs:46-50 | the type suffix of every stat kind, and its sample rate, reads back as that kind |
| Metrics.ParsePacketParts | CWServiceBus.Core/Diagnostics/Metrics.cs:46-64 | a packet splits into key, value and suffix at its first colon and the next bar |
| Metrics.ParsePacketOf | CWServiceBus.Core/Diagnostics/Metrics.cs:43-66 | every timing, gauge and counter packet with a plain key reads back as its key, value and kind |
| Metrics.PacketHasNoNewline | CWServiceBus.Core/Diagnostics/Metrics.cs:43-66 | a packet with a plain key holds no newline |
| Metrics.JoinedSnoc | CWServiceBus.Core/Diagnostics/Metrics.cs:99-122 | each batch call appends its packet and one newline to the text built so far |
| Metrics.LinesOfJoinLines | CWServiceBus.Core/Diagnostics/Metrics.cs:106 | splitting newline-terminated lines at their newlines gives back the lines |
| Metrics.BatchReadsBack | CWServiceBus.Core/Diagnostics/Metrics.cs:99-126 | the text of a batch holds one line per call, in call order, each reading back as that call's stat |
| Metrics.AsciiCharRoundTrip | CWServiceBus.Core/Diagnostics/Metrics.cs:80 | Encoding.ASCII keeps an ASCII character and turns any other into '?' |
| Metrics.AsciiBytes | CWServiceBus.Core/Diagnostics/Metrics.cs:80 | one byte per character |
| Metrics.AsciiRoundTrip | CWServiceBus.Core/Diagnostics/Metrics.cs:80 | ASCII text survives the encoding; every other character comes back as '?' |
| Metrics.TryParseBool | CWServiceBus.Core/Diagnostics/Metrics.cs:18 | a bool is parsed only from a setting that is present (which text parses is TryParseBoolPadded) |
| Metrics.TryParseBoolPadded | CWServiceBus.Core/Diagnostics/Metrics.cs:18 | "true" or "false" in any letter case, with any white space or NUL characters around it, parses to its value |
| Metrics.DropTrailingNulls | CWServiceBus.Core/Diagnostics/Metrics.cs:25 | only trailing NUL characters are removed, all of them |
| Metrics.TryParseInt32 | CWServiceBus.Core/Diagnostics/Metrics.cs:25 | a parsed port is in the Int32 range (which text parses is TryParseInt32Padded) |
| Metrics.TryParseInt32Padded | CWServiceBus.Core/Diagnostics/Metrics.cs:25 | every Int32 written in decimal, with number white space around it and NUL characters after it, parses back to itself |
| Metrics.SettingsAsWritten | CWServiceBus.Core/Diagnostics/Metrics.cs:15-26 | the port is the parsed setting, or zero when it is missing or malformed |
| Metrics.MissingPortIsZero | CWServiceBus.Core/Diagnostics/Metrics.cs:24-25 | with no settings at all the port as written is 0, the host 127.0.0.1 and collection disabled |
| Metrics.ConfiguredSettings | CWServiceBus.Core/Diagnostics/Metrics.cs:15-26 | the port is the parsed setting, or 8125 when it is missing or malformed; collection is enabled only by a setting |
| Metrics.SettingsDifferOnlyInPort | CWServiceBus.Core/Diagnostics/Metrics.cs:15-26 | the written and the intended settings share host and enabled flag, and their ports differ exactly when the port setting does not parse |
| Metrics.ConfiguredPortIsUsed | CWServiceBus.Core/Diagnostics/Metrics.cs:24-26 | a port setting holding an Int32 in decimal, white space around it allowed, becomes the port both as written and as intended |
| Metrics.Metrics.constructor | CWServiceBus.Core/Diagnostics/Metrics.cs:15-39 | a client with the host, port and enabled flag of the given settings (SettingsAsWritten as the code stands), nothing queued and nothing sent |
| Metrics.Metrics.Append | CWServiceBus.Core/Diagnostics/Metrics.cs:68-72 | the packet is queued when collection is enabled; nothing is sent |
| Metrics.Metrics.AddTiming | CWServiceBus.Core/Diagnostics/Metrics.cs:43-52 | when enabled, the timing packet with its sample rate is queued |
| Metrics.Metrics.SetGauge | CWServiceBus.Core/Diagnostics/Metrics.cs:54-59 | when enabled, the gauge packet is queued |
| Metrics.Metrics.Increment | CWServiceBus.Core/Diagnostics/Metrics.cs:61-66 | when enabled, the counter packet is queued |
| Metrics.Metrics.SendPacket | CWServiceBus.Core/Diagnostics/Metrics.cs:77-82 | when enabled, the packet's ASCII bytes go out as one datagram; the queue is untouched |
| Metrics.Metrics.SendNext | CWServiceBus.Core/Diagnostics/Metrics.cs:140-152 | the oldest queued packet leaves the queue and is sent when enabled; an empty queue leaves everything as it is |
| Metrics.Metrics.SendBatch | CWServiceBus.Core/Diagnostics/Metrics.cs:84-87 | a fresh, empty batch for this client |
| Metrics.Batch.constructor | CWServiceBus.Core/Diagnostics/Metrics.cs:91-97 | an empty batch for the client |
| Metrics.Batch.Add | CWServiceBus.Core/Diagnostics/Metrics.cs:106 | the stat's packet and a newline are appended to the text, and the batch itself is returned |
| Metrics.Batch.AddTiming | CWServiceBus.Core/Diagnostics/Metrics.cs:99-108 | one timing stat is appended, whether or not collection is enabled |
| Metrics.Batch.SetGauge | CWServiceBus.Core/Diagnostics/Metrics.cs:110-115 | one gauge stat is appended |
| Metrics.Batch.Increment | CWServiceBus.Core/Diagnostics/Metrics.cs:117-122 | one counter stat is appended |
| Metrics.Batch.Send | CWServiceBus.Core/Diagnostics/Metrics.cs:124-127 | the whole text, one line per stat, is queued as one packet when collection is enabled |

## Left out

- Threads and locks. Each transport runs one worker's Process step at a time. The admission `Semaphore` is a permit count. The `[ThreadStatic]` flags are fields of the transport object. The `ReaderWriterLockSlim` around the routing tables is left out, because the model has no concurrency.
- Workers: a worker thread is only a record of whether Stop was called on it. The thread's loop, and its removal from the list once it has stopped, are not modelled, because they are thread lifecycle.
- Metrics: the background sender of `AsyncMetricAppender` is modelled one iteration at a time (`Metrics.Metrics.SendNext`). Its `Task`, its `AutoResetEvent` wait and its swallowing of exceptions are concurrency and are left out. The static constructor starting it is left out for the same reason.
- Metrics: the UDP client is modelled by the list of datagrams it is handed. The socket itself is I/O.
- Metrics.FormatRate: a sample rate is a natural number of ten-thousandths. This is the precision `ToString("F4")` writes. `double` rounding, negative rates and rates that are not multiples of 0.0001 are not modelled, because the model has no floating point.
- Metrics.LongToString: the model formats and parses with the invariant culture. That means '.' as the decimal separator and '-' and '+' as the signs. The code uses the thread's current culture for `long.ToString("F0")`, `double.ToString("F4")` and `int.TryParse` (CWServiceBus.Core/Diagnostics/Metrics.cs:25, :46, :49, :57, :64, :101, :104, :112, :119). Under another culture the packet text differs: de-DE writes a rate of 0.5 as "0,5000". Metrics.FormatRate, Metrics.ParseInteger and Metrics.TryParseInt32 therefore hold only for a culture with those symbols, and so do the round trips proved about them (Metrics.ParseFormatRate, Metrics.ParsePacketOf, Metrics.BatchReadsBack, Metrics.TryParseInt32Padded).
- The SQL Server transport's reader loop is left out: the SQL text, the `BackOff` wait and its ADO.NET calls are database I/O. What a read returns is a parameter.
- The Service Broker wrapper calls and `SqlServerSubscriptionStorage` are left out, because they are database I/O.
- XML serialization is left out. Whether a body or a header string deserializes, and to what, is a parameter.
- Reflection: .NET types are a finite type graph (`TypeGraphs`). `MessageMapper`'s proxy generation is left out. Unicast.GetMappedTypeFor requires a well-formed mapper: it maps a class to itself or to an interface, as the mapper's own lookup at CWServiceBus.Core/Reflection/MessageMapper.cs:225-239 does.
- The message bus builders and the service locator wrappers are left out: they are assembly scanning and container glue. So is `UnicastCommandBus`, a thin forwarder to the dispatcher.
- `ServiceBrokerMessageReceiver` is not part of this model. It does not compile, because `conversationHandle` is undefined, and it always returns null.
- Performance counters are left out, because they are Windows APIs over floating-point samples.
- Logging is left out. This includes the debug logging in the SendMessage loop of `UnicastServiceBus`. That logging reads `messages[0]` and the envelope's headers only when debug logging is enabled.
- Ids, times and the principal's identity are parameters. `Guid.NewGuid`, `DateTime.UtcNow` and `Thread.CurrentPrincipal` are nondeterministic inputs.
- Dispatcher: the End and Dispatched observers, the DispatchException event, `BuildUp`, a handler's `Dispose` and `GetAll` are modelled as never throwing. The code gives no handling for their exceptions.
- Dispatcher: `childServiceLocator.Get` (CWServiceBus.Core/Dispatch/MessageDispatcher.cs:29) and `Activator.CreateInstance` (MessageDispatcher.cs:33) are modelled as always returning a handler. An exception from them would leave the try block like a handler's exception, and the model does not trace it.
- Dispatcher: a Dispatching subscriber (MessageDispatcher.cs:69-72) is modelled as never throwing. A throwing one would skip the handlers after every Begin, and the model does not capture that path.
- Dispatcher: the catch block's log line reads the message context's MessageId (MessageDispatcher.cs:56). A failure there would replace the handler's exception; the model leaves logging out.
- Dispatcher.ManagersLoadedOnce: assumes `GetAll` returns a list. A null result leaves the managers unloaded (MessageDispatcher.cs:91-97), so the next OnDispatching or OnDispatched (MessageDispatcher.cs:66, :78) loads them again; the model does not capture those reloads.
- Dispatcher.SecondCallDoesNotReload: holds only for a `GetAll` that returns a list, for the same reason.
- The transaction wrappers model `Open`, `BeginTransaction`, `Commit`, `Rollback`, `Dispose` and `Close` as never throwing (for example CWServiceBus.Core/SqlServer/SqlServerTransactionWrapper.cs:49). A failing Commit would reach the catch block and roll back, and the model does not capture that path.
- The MessageSent, MessageReceived and MessageHandled subscribers of `UnicastMessageBus` are modelled as never throwing. A MessageSent exception after the transport's Send (CWServiceBus.Core/Unicast/UnicastMessageBus.cs:223-224) would reach the caller, and a MessageHandled one (UnicastMessageBus.cs:266) would be wrapped and counted as a handling failure; the model does not capture either path.
- A null message mapper in `UnicastMessageBus` (UnicastMessageBus.cs:406) is not modelled. The mapper is always present.
- `UnicastMessageBus` event wiring is not modelled. This covers the `Transport` setter (UnicastMessageBus.cs:34-51) and `AddAdditionalITransport` (:53-60). An additional listener is represented by a count, with a Start call each. The model does not capture that such a listener forwards only TransportMessageReceived.
- `UnicastMessageBus.Transport_FailedMessageProcessing` (UnicastMessageBus.cs:237-240) only raises MessageFailed. It is not modelled, because the bus's event subscribers are outside the model.
- `UnicastMessageBus.MapMessageTypesToAddress` (UnicastMessageBus.cs:372-378) is not modelled. It calls Unicast.UnicastMessageBus.MapMessageTypeToAddress once per entry.
- `UnicastMessageBus` has HandleCurrentMessageLater, ForwardCurrentMessageTo and DoNotContinueDispatchingCurrentMessageToHandlers (UnicastMessageBus.cs:309-322). They only throw NotImplementedException, as Unicast.UnicastMessageBus.SendLocal does, and have no members of their own.
- Unicast.TypeName: a type has one name here. The code uses three: AssemblyQualifiedName in the SubscriptionMessageType header (UnicastMessageBus.cs:108, :134); FullName and `Type.ToString()` in the error texts (:207, :217); and `new MessageType(Type)` for the publish keys (:85). `MessageType` is not part of this model, so the model assumes that a subscription made from the header matches the publish key of the same type.
- Unicast.UnicastMessageBus.HandleControlMessage: a Subscribe or Unsubscribe envelope without a ReturnAddress subscribes or unsubscribes the empty address, where the code (CWServiceBus.Core/Unicast/UnicastMessageBus.cs:297, :302) stores or removes null. The subscription store holds strings, so the two are not told apart. The only reader of the stored addresses is SendMessage's destination check, which rejects null and empty alike (UnicastMessageBus.cs:214).
- Seqs.ExceptOrder: `Enumerable.Except` also drops repeated elements of its first argument, and the model's Except keeps them. The order is proved only for a duplicate-free list. Every registry list is one (Registry.CandidatesNoDup), so the two agree wherever Except is used.
- Registry.MessageHandlerCollection.ExecuteTheseHandlersFirst: the picks are kept in a `HashSet`. The model enumerates it in insertion order, which the .NET implementation gives for a set that is only added to, but which the type does not promise.
- Metrics.TryParseBool: letter case is folded for ASCII letters only. `bool.TryParse` compares ordinally ignoring case, which also accepts a few non-ASCII letters whose upper case is ASCII (U+017F, the long s, in "false"). That case is not modelled.
- ServiceUnicast.UnicastServiceBus.constructor: the class has no constructor in the code, and its mapper, storage and sender fields are never assigned. `ServiceBusBuilder` calls a four-argument constructor that does not exist. The model's constructor takes these values as parameters. The routing lookup is not a parameter: it is created empty and nothing adds to it (CWServiceBus.Core/Unicast/UnicastServiceBus.cs:19, :231), so the constructor sets it to the empty map and `Send(messages)` always throws. ServiceUnicast.ServiceDestination, ServiceUnicast.DestinationsCompared and ServiceUnicast.DestinationsDiffer state the lookup rule for any table, as it would act if an entry were added; with the code's empty table this bus never routes a message.
- ServiceUnicast.UnicastServiceBus.GetDestinationServiceForMessage: a null mapper is not modelled. The mapper is always present, so the `messageMapper != null` test is always true.
- A null message sender in `UnicastServiceBus` is not modelled. What the sender throws for each destination is a parameter.
- The service bus members that only throw NotImplementedException are represented by `ServiceUnicast.UnicastServiceBus.Unsubscribe` and have no members of their own. These are SendLocal, HandleCurrentMessageLater, ForwardCurrentMessageTo, DoNotContinueDispatchingCurrentMessageToHandlers, OutgoingHeaders, CurrentMessageContext, and the conditional and generic Subscribe/Unsubscribe overloads.
- The `CreateInstance` and `Action<T>` overloads of both buses are left out. What CreateInstance makes is a parameter of Publish; the other overloads only build a message and forward to the modelled members.
- The registry's `ExecuteTheseHandlersLast` is not modelled and `AddMessageTypeConvention` is not invented. Both are called from outside the registry, but neither exists in it.

## Findings

| source | as written | input that shows it | evidently intended | confidence | as-written member | corrected member |
|---|---|---|---|---|---|---|
| CWServiceBus.Core/Diagnostics/Metrics.cs:24-25 | `int.TryParse` writes 0 into `port` when it fails, overwriting the default 8125 | a configuration with no `metrics_port` setting, or a malformed one | the default port 8125 when the setting is missing or malformed | high, not executed | Metrics.SettingsAsWritten | Metrics.ConfiguredSettings |
| CWServiceBus.Core/SqlServer/SqlServerTransport.cs:599-608 | the catch block rethrows a SqlException only for error 208 and swallows every other one, after RunInTransaction has rolled the inserts back | a Send outside any transaction whose insert deadlocks (SQL error 1205) | every failed insert reaches the caller as an exception, so no message is lost silently | medium, not executed | SqlServer.SendLosesMessageSilently | SqlServer.SendFaultIntended |

`Metrics.MissingPortIsZero` shows the as-written port is 0 for an empty configuration.
`Metrics.SettingsDifferOnlyInPort` proves the two definitions agree on everything but
the port, and differ on the port exactly when the setting does not parse. The
`Metrics.Metrics` constructor takes the settings as a parameter. The static
constructor as written builds it from `Metrics.SettingsAsWritten`; the intended one
builds it from `Metrics.ConfiguredSettings`.

`SqlServer.SendLosesMessageSilently` shows that a Send outside any transaction whose
insert fails with any SQL error other than 208 is rolled back and still returns
normally. `SqlServer.DeadlockedSendIsLost` is one such input: a deadlock (error 1205)
on the only destination. `SqlServer.SendFaultIntended` rethrows every other SQL error
unchanged. `SqlServer.IntendedSendReportsEveryLoss` proves that with it, Send returns
normally exactly when its inserts were committed. The transport's own Send keeps the
written behaviour (`SqlServer.SendInsertsInOrder`), because the callers of the
transport only see what it throws.

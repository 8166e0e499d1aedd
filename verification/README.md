# Verified model of the cmsutil resource machine and its neighbours

The Dafny modules here model parts of ActiveMQ-CPP 3.9.4 and of the gateway program that uses it, and prove what
these parts are for. `dafny verify dfyconfig.toml` checks everything.

**The resource machine** (`Provider`, `Lifecycle`, `CacheKeys`, `PoolHistory`, `Pools`, `Resolver`, `Configuration`,
`Ownership`, `Template`, `Chains`, `Client`, `Runs`, `Observed`). A `CmsTemplate` makes a connection, session pools,
sessions, cached producers and consumers, and destinations when it first needs them, and every handler of an exception
on the call stack destroys the template. Ownership is split between the session pools, the destination resolver and the
lifecycle manager.
`Provider` is the CMS provider: it writes every allocation, use, close and delete into a log, also of the pools, pooled
sessions, session resolvers, wrappers and resolved destinations that the template's own code goes through, and a script
says how each call that may fail ends. What a memory-safe log is, is said in `Provider` about the log alone.
`Configuration` says without connection, pools or caches what each operation means, and exactly how many calls it makes,
whether it succeeds or fails. The main results are `Client.WholeRun` and what `Runs` derives from it, for any operations
in any order and any script of failures. `Observed` says what such a run means to a caller, in plain numbers, texts and
flags.

* Each operation succeeds if and only if it has what it needs and none of the calls that it takes fails. It then sends
  or receives what the configuration says. If it fails, it throws a CMSException, has delivered nothing, and leaves the
  template like new with the same properties: what can follow is exactly what a new template can do on the rest of the
  script. So once the provider works again the template does, too.
* Operations and script decide every outcome, the number of calls that each operation makes, and what the template is
  afterwards.
* Nothing is used after it was deleted, nothing is deleted twice, a closed connection is only deleted, and when the
  template is gone nothing is left. There is one exception. `doSend` deletes its message when the send works and when it
  throws a CMSException, but not when it throws anything else; `Runs.StrandsIff` says exactly when, and
  `Runs.LeaveMessage` is such a run.
* A send passes on the quality of service exactly when that is enabled, a receive polls, waits for ever or waits for so
  long as the timeout says, and both go to the topic or queue that the target, the name and the domain in force mean. A
  first send makes eight calls and a second one four.
* As long as nothing fails, no second connection, session of an acknowledge mode, or producer, consumer or
  destination of a key is ever made.

**The shutdown of a stress-test receiver** (`Shutdown`). A reader thread, any number of pool tasks and the closing
owner as interleaved atomic steps. Freeing the receiver is safe in every interleaving. A listener that throws skips
the decrement of the task counter, and from then on the destructor never returns: one message whose number the listener
cannot parse is enough, and `Shutdown.BadMessageBlocks` is such a run. If none has thrown when the owner closes the
receiver and none does so later, the destructor returns under every schedule. With a pool, without threads and without
tasks, every message that is taken on reaches the listener once, or was overtaken by the closing.

**The sequence check of the stress test** (`Decimal`, `SequenceCheck`, `StressRun`). Messages are printed and parsed,
and an account is kept of the numbers of each sender. The account is clean exactly for the numbers 1, 2, 3 and so on,
but senders start with 0, so that a delivery without a fault is reported as one bad message for each sender. The loop of
`Integer::parse`, which works with 32-bit products that may wrap around, finds exactly the numbers that fit an int. The
guard of `onMessage` lets a negative sender and the one equal to the thread count through to the array.

**The body of a bytes message** (`BytesMessage`), with compression, short reads and rewinding. A compressed message
to which only empty writes were made cannot be read: it has no length prefix.

**Names of destinations** (`QueryOptions`, `Destinations`): printing and parsing, options, temporary names, composite
names and their memo. Two fields of a composite name make the same child exactly when one spells out the kind that the
other leaves to the default. A name with a wrong option is refused when it has been taken over already, and the
destination then answers with the children of its old name.

**The contract list of the gateway** (`ContractList`): counted and allocated first, filled second.

`Wrappers` and `Text` hold what the others share.

## Model

| member | source | states |
|---|---|---|
| `Provider.NoUseAfterFree` | activemq-cpp-library-3.9.4/src/main/activemq/cmsutil/ResourceLifecycleManager.cpp:96-135 | In a safe log nothing is used, closed or freed after it was freed. |
| `Provider.NoUseAfterClose` | activemq-cpp-library-3.9.4/src/main/activemq/cmsutil/ResourceLifecycleManager.cpp:78-135 | In a safe log all that happens to a closed object is that it is freed. |
| `Provider.FreedExactlyOnce` | activemq-cpp-library-3.9.4/src/main/activemq/cmsutil/ResourceLifecycleManager.cpp:70-147 | In a safe log an object that was made is freed exactly once, unless it is still live. |
| `Lifecycle.ResourceLifecycleManager.Destroy` | activemq-cpp-library-3.9.4/src/main/activemq/cmsutil/ResourceLifecycleManager.cpp:70-147 | The exact sequence of closes and deletes: every managed object once, whether or not a close fails; the lists are empty afterwards, nothing closed is left, and a second destroy does nothing. |
| `Lifecycle.ResourceLifecycleManager.ReleaseAll` | activemq-cpp-library-3.9.4/src/main/activemq/cmsutil/ResourceLifecycleManager.cpp:60-67 | Forgets every object without deleting one. |
| `Lifecycle.ResourceLifecycleManager.AddConnection` | activemq-cpp-library-3.9.4/src/main/activemq/cmsutil/ResourceLifecycleManager.cpp:150-159 | The manager owns one more object, and the five lists stay free of duplicates (likewise for the other four add methods). |
| `Lifecycle.TeardownOrder` | activemq-cpp-library-3.9.4/src/main/activemq/cmsutil/ResourceLifecycleManager.cpp:76-139 | That sequence closes all before it deletes any, and deletes producers and consumers before destinations, these before sessions, and sessions before connections. |
| `CacheKeys.ProducerKeyInjective` | activemq-cpp-library-3.9.4/src/main/activemq/cmsutil/PooledSession.cpp:163-179 | Two destinations share a producer key if and only if they are the same topic or the same queue, up to temporariness. |
| `CacheKeys.ConsumerKeyInjective` | activemq-cpp-library-3.9.4/src/main/activemq/cmsutil/PooledSession.cpp:122-135 | The consumer key of a request belongs to that request alone if and only if neither its name nor its selector contains "]s=". |
| `PoolHistory.HighWaterMark` | activemq-cpp-library-3.9.4/src/main/activemq/cmsutil/SessionPool.cpp:55-100 | In every history of takes, failed takes and returns, as many sessions are created as were ever outstanding together. |
| `PoolHistory.FirstInFirstOut` | activemq-cpp-library-3.9.4/src/main/activemq/cmsutil/SessionPool.cpp:80-98 | Sessions are handed out again in exactly the order in which they came back. |
| `PoolHistory.OutstandingCount` | activemq-cpp-library-3.9.4/src/main/activemq/cmsutil/SessionPool.cpp:55-100 | Waiting and outstanding sessions partition the sessions of the pool. |
| `PoolHistory.RunIsValid` | activemq-cpp-library-3.9.4/src/main/activemq/cmsutil/SessionPool.cpp:55-100 | No history lists a waiting session twice, or one that was never created. |
| `PoolHistory.TakenIsFree` | activemq-cpp-library-3.9.4/src/main/activemq/cmsutil/SessionPool.cpp:80-87 | A session that is handed out was not outstanding before, and is the only new one outstanding. |
| `Pools.SessionPool.constructor` | activemq-cpp-library-3.9.4/src/main/activemq/cmsutil/SessionPool.cpp:25-34 | A new pool has no sessions and owns only itself. |
| `Pools.SessionPool.TakeSession` | activemq-cpp-library-3.9.4/src/main/activemq/cmsutil/SessionPool.cpp:55-91 | Refines the take of the history; a new session is registered with the manager and gets empty caches. It fails exactly when there is none and the call to create one fails, and then nothing changes. The first thing it does is to use the pool, and then the connection when there is no session. |
| `Pools.SessionPool.ReturnSession` | activemq-cpp-library-3.9.4/src/main/activemq/cmsutil/SessionPool.cpp:94-100 | Refines the return of the history; only an outstanding session can come back. The pooled session and the pool are used, in that order. |
| `Pools.SessionPool.Delete` | activemq-cpp-library-3.9.4/src/main/activemq/cmsutil/SessionPool.cpp:37-52 | Deletes the pool, its pooled sessions and their cached wrappers, each once, and no CMS object. |
| `Pools.DeleteSession` | activemq-cpp-library-3.9.4/src/main/activemq/cmsutil/PooledSession.cpp:48-65 | Deletes a pooled session and the wrappers in its two caches, and nothing else. |
| `Pools.SessionPool.CreateCachedProducer` | activemq-cpp-library-3.9.4/src/main/activemq/cmsutil/PooledSession.cpp:86-119 | The producer is for the requested destination: the cached one for its key, or one new producer registered with the manager; it fails exactly for a null destination or when the call to create one fails, and leaves the cache alone. The pooled session and the destination, if it is a managed one, are used before anything else, and then the session when there is no producer. |
| `Pools.SessionPool.CreateCachedConsumer` | activemq-cpp-library-3.9.4/src/main/activemq/cmsutil/PooledSession.cpp:122-160 | The same for consumers, with destination, selector and noLocal in the key; again the pooled session and the managed destination are used first. |
| `Resolver.DynamicDestinationResolver.ResolveDestinationName` | activemq-cpp-library-3.9.4/src/main/activemq/cmsutil/DynamicDestinationResolver.cpp:96-117 | A name resolved before gives the same destination and changes nothing; otherwise one destination is made, managed and remembered, and no other answer changes. It fails exactly for an empty name or when the call to create one fails. A remembered answer uses the session resolver and nothing else. |
| `Resolver.DynamicDestinationResolver.GetDestination` | activemq-cpp-library-3.9.4/src/main/activemq/cmsutil/DynamicDestinationResolver.cpp:28-71 | The same for one session resolver, that is for getTopic and getQueue: the session resolver is used first, and to create a destination the pooled session and then the session in it. |
| `Resolver.DynamicDestinationResolver.Destroy` | activemq-cpp-library-3.9.4/src/main/activemq/cmsutil/DynamicDestinationResolver.cpp:84-93 | Deletes every session resolver once and forgets all destinations without deleting one. |
| `Resolver.NoAliases` | activemq-cpp-library-3.9.4/src/main/activemq/cmsutil/DynamicDestinationResolver.cpp:96-117 | Different sessions, kinds or names never share a destination. |
| `Ownership.Homes` | activemq-cpp-library-3.9.4/src/main/activemq/cmsutil/CmsTemplate.cpp:192-213 | Every live object has exactly one of the owners: the manager, the resolver or one session pool. |
| `Ownership.AddPair` | activemq-cpp-library-3.9.4/src/main/activemq/cmsutil/SessionPool.cpp:60-78 | A wrapper given to a pool and a CMS object given to the manager keep the books balanced: all that is live has one owner, and all that is managed is known to the template, its resolver or a pool. |
| `Ownership.AddResolved` | activemq-cpp-library-3.9.4/src/main/activemq/cmsutil/DynamicDestinationResolver.cpp:100-116 | Newly resolved destinations and session resolvers keep the books balanced. |
| `Template.CmsTemplate.constructor` | activemq-cpp-library-3.9.4/src/main/activemq/cmsutil/CmsTemplate.cpp:77-144 | A new template has nothing set up and the documented defaults. |
| `Template.CmsTemplate.SetDefaultDestinationName` | activemq-cpp-library-3.9.4/src/main/activemq/cmsutil/CmsTemplate.h:324-329 | A new name forgets the default destination object; the same name keeps it. |
| `Template.CmsTemplate.SetPubSubDomain` | activemq-cpp-library-3.9.4/src/main/activemq/cmsutil/CmsTemplate.h:349-354 | Another domain forgets the default destination object; the same domain keeps it. |
| `Template.CmsTemplate.Destroy` | activemq-cpp-library-3.9.4/src/main/activemq/cmsutil/CmsTemplate.cpp:192-213 | From any state in order, however far an operation got: everything made is deleted once and the template is as new but for its properties; doing it again does nothing. |
| `Template.CmsTemplate.ResolveDestinationName` | activemq-cpp-library-3.9.4/src/main/activemq/cmsutil/CmsDestinationAccessor.cpp:59-64 | The destination of the name in the current domain, live and managed; one call if it is not known yet, and a failure exactly for an empty name or when that call fails. |
| `Template.CmsTemplate.DestroySessionPools` | activemq-cpp-library-3.9.4/src/main/activemq/cmsutil/CmsTemplate.cpp:161-172 | Deletes every pool with all it owns and nulls the four pointers. |
| `Template.CmsTemplate.GetConnection` | activemq-cpp-library-3.9.4/src/main/activemq/cmsutil/CmsTemplate.cpp:249-271 | Makes and starts a connection, and makes the four pools, if there is none. It fails if and only if there is no factory or one of the two calls fails, and then everything is reset; a new connection was used. |
| `Template.CmsTemplate.CreateSessionPools` | activemq-cpp-library-3.9.4/src/main/activemq/cmsutil/CmsTemplate.cpp:147-158 | All four pools are there, empty, and nothing was deleted. |
| `Template.CmsTemplate.TakeSession` | activemq-cpp-library-3.9.4/src/main/activemq/cmsutil/CmsTemplate.cpp:274-286 | Gives the only session of the current acknowledge mode, with one more call if there is none yet; it fails if and only if one of its calls does or there is no factory, and then everything is reset. |
| `Template.CmsTemplate.ReturnSession` | activemq-cpp-library-3.9.4/src/main/activemq/cmsutil/CmsTemplate.cpp:289-302 | The session is available again and nothing is outstanding. |
| `Template.CmsTemplate.ResolveDefaultDestination` | activemq-cpp-library-3.9.4/src/main/activemq/cmsutil/CmsTemplate.cpp:216-246 | Gives the default object or the destination of the current name in the current domain, and remembers it; it fails exactly without both or when the call to resolve the name fails. |
| `Template.CmsTemplate.CreateProducer` | activemq-cpp-library-3.9.4/src/main/activemq/cmsutil/CmsTemplate.cpp:305-333 | A live cached producer for the given or default destination, set up as configured, with one call for each of name and producer that is not there yet and two to set it up; a reset if and only if one of these fails or there is no destination. |
| `Template.CmsTemplate.CreateConsumer` | activemq-cpp-library-3.9.4/src/main/activemq/cmsutil/CmsTemplate.cpp:336-360 | The same for consumers, with selector and noLocal, and nothing to set up. |
| `Template.CmsTemplate.CloseWrapper` | activemq-cpp-library-3.9.4/src/main/activemq/cmsutil/CmsTemplate.cpp:363-404 | A cached producer or consumer is used once more when the action is done, and stays. |
| `Template.SetDefaults` | activemq-cpp-library-3.9.4/src/main/activemq/cmsutil/CmsTemplate.cpp:325-327 | The producer leaves out message ids and timestamps exactly if they are not enabled, or one of the two calls failed; it makes both calls unless the first fails. |
| `Template.SendNew` | activemq-cpp-library-3.9.4/src/main/activemq/cmsutil/CmsTemplate.cpp:564-596 | The message is sent and deleted, or deleted when a CMSException was thrown; it is left behind exactly when something else was thrown. |
| `Template.CmsTemplate.DoReceive` | activemq-cpp-library-3.9.4/src/main/activemq/cmsutil/CmsTemplate.cpp:599-623 | Receives once, waiting as the timeout says (Observed.WaitsAsTold); it fails exactly when that call does, resets everything and receives nothing. |
| `Template.CmsTemplate.ProduceInCms` | activemq-cpp-library-3.9.4/src/main/activemq/cmsutil/CmsTemplate.cpp:500-531 | The producer action is carried out at the destination meant if and only if there is one and no call fails; otherwise everything is reset, and nothing was sent. |
| `Template.CmsTemplate.ConsumeInCms` | activemq-cpp-library-3.9.4/src/main/activemq/cmsutil/CmsTemplate.cpp:626-665 | One message is received from the destination meant if and only if there is one and no call fails; otherwise everything is reset. |
| `Template.CmsTemplate.ExecuteSession` | activemq-cpp-library-3.9.4/src/main/activemq/cmsutil/CmsTemplate.cpp:419-443 | A null action does nothing. Any other succeeds if and only if it is acceptable and none of the calls that it takes in this configuration fails; it leaves no session outstanding, or everything reset, however many handlers ran. It makes no call after the first that fails, but for the close of a connection that it had or made. |
| `Template.CmsTemplate.ExecuteProducer` | activemq-cpp-library-3.9.4/src/main/activemq/cmsutil/CmsTemplate.cpp:446-497 | The same for the three overloads that take a producer action. |
| `Template.CmsTemplate.Send` | activemq-cpp-library-3.9.4/src/main/activemq/cmsutil/CmsTemplate.cpp:534-561 | Exactly one message is sent, to the destination meant and with the quality of service in force (Observed.SendsAsTold, Observed.SendsWhereMeant), if and only if the request is acceptable and no call fails; otherwise none is, and everything is reset. |
| `Template.CmsTemplate.Receive` | activemq-cpp-library-3.9.4/src/main/activemq/cmsutil/CmsTemplate.cpp:668-743 | Exactly one message is received, from the destination meant and waiting as told (Observed.WaitsAsTold, Observed.ReceivesWhereMeant), if and only if the request is acceptable and no call fails; otherwise none is, and everything is reset, so that no message is received and then lost. |
| `Configuration.SpentUntilFailure` | activemq-cpp-library-3.9.4/src/main/activemq/cmsutil/CmsTemplate.cpp:419-443 | Of the calls that a step would make, those up to the first failure are made, or all. |
| `Configuration.StepThenStep` | activemq-cpp-library-3.9.4/src/main/activemq/cmsutil/CmsTemplate.cpp:500-520 | Outcome and number of calls of two steps in a row follow from those of each: the second begins where the first ended, and the close of the connection is counted once. |
| `Configuration.ReceivedFromTheRightPlace` | activemq-cpp-library-3.9.4/src/main/activemq/cmsutil/PooledSession.cpp:122-160 | A receive uses a consumer of the destination, selector and flag asked for, when neither name nor selector contains "]s=". |
| `Template.CmsTemplate.AllOrNothing` | activemq-cpp-library-3.9.4/src/main/activemq/cmsutil/CmsTemplate.cpp:175-213 | Between operations: initialized, connected, all pools there and one managed connection hold together or not at all. |
| `Template.CmsTemplate.MemoIsCurrent` | activemq-cpp-library-3.9.4/src/main/activemq/cmsutil/CmsTemplate.cpp:224-246 | Between operations a remembered default destination is live and is what the current name and domain mean. |
| `Template.CmsTemplate.ResolverKeysAreLive` | activemq-cpp-library-3.9.4/src/main/activemq/cmsutil/CmsTemplate.cpp:192-213 | Between operations every session that the resolver remembers is a live pooled session of a live session. |
| `Template.CmsTemplate.AtMostOne` | activemq-cpp-library-3.9.4/src/main/activemq/cmsutil/CmsTemplate.cpp:249-360 | However many operations have run, no two live objects do the same job: one connection, a session for each acknowledge mode, a producer or consumer for each key. |
| `Client.NothingMadeTwice` | activemq-cpp-library-3.9.4/src/main/activemq/cmsutil/CmsTemplate.cpp:249-302 | While nothing was freed, no two objects were ever made for the same role. |
| `Client.WholeRun` | activemq-cpp-library-3.9.4/src/main/activemq/cmsutil/CmsTemplate.cpp:192-213 | Every run of operations with every script of failures: each operation succeeds if and only if it is acceptable and none of the calls that it takes fails, makes exactly the calls up to its end or its first failure and the close, and sends, receives or leaves what the configuration says; the log of all uses is safe; after the last destroy only the messages of strandings are left; without a failure nothing is made twice. |
| `Runs.Determined` | activemq-cpp-library-3.9.4/src/main/activemq/cmsutil/CmsTemplate.cpp:39-64 | Two lawful runs of the same operations on the same script agree in every outcome, in the calls of every operation, in the number of messages, and in the configuration at every point. |
| `Runs.UsableAgain` | activemq-cpp-library-3.9.4/src/main/activemq/cmsutil/CmsTemplate.cpp:419-443 | Whatever has failed before: when no call fails from an operation on, this and every later operation does what it means if and only if it is acceptable. |
| `Runs.FailureIsReset` | activemq-cpp-library-3.9.4/src/main/activemq/cmsutil/CmsTemplate.cpp:39-64 | What can follow a failed operation is exactly what a new template with the same properties can do on the rest of the script. |
| `Runs.StrandsIff` | activemq-cpp-library-3.9.4/src/main/activemq/cmsutil/CmsTemplate.cpp:564-596 | An operation leaves a message behind if and only if it is an acceptable send, all its calls before the last succeed, and the last, the send itself, throws no CMSException. |
| `Runs.LeaveMessage` | activemq-cpp-library-3.9.4/src/main/activemq/cmsutil/CmsTemplate.cpp:578-595 | It does happen: a run of one send, of which the eighth call throws, at whose end a message is live. |
| `Observed.SendsAsTold` | activemq-cpp-library-3.9.4/src/main/activemq/cmsutil/CmsTemplate.cpp:564-596 | A successful send carries a quality of service if and only if it is enabled, and then the one that was set, and leaves out ids and timestamps exactly if these are not enabled. |
| `Observed.WaitsAsTold` | activemq-cpp-library-3.9.4/src/main/activemq/cmsutil/CmsTemplate.cpp:599-623 | A successful receive polls exactly for the timeout -1, waits for ever exactly for 0, and otherwise waits for the timeout cut to 32 bits. |
| `Observed.SendsWhereMeant` | activemq-cpp-library-3.9.4/src/main/activemq/cmsutil/CmsTemplate.cpp:216-246 | The producer of a successful send is for the given destination, or for the topic or queue of the name, as the domain says, in a session of the acknowledge mode in force. |
| `Observed.ReceivesWhereMeant` | activemq-cpp-library-3.9.4/src/main/activemq/cmsutil/CmsTemplate.cpp:626-665 | The same for a consumer, with the selector that was asked for and the noLocal flag in force, when no text contains "]s=". |
| `Observed.SucceedsWhenComplete` | activemq-cpp-library-3.9.4/src/main/activemq/cmsutil/CmsTemplate.cpp:224-246 | With a factory and without a failing call an operation succeeds if and only if its target is a destination, a name that is not empty, or a default that is set. |
| `Observed.FirstTime` | activemq-cpp-library-3.9.4/src/main/activemq/cmsutil/CmsTemplate.cpp:249-333 | From nothing a send makes eight calls, a receive five, a caller's producer action seven and a session action four, and a name takes one more. |
| `Observed.SecondTime` | activemq-cpp-library-3.9.4/src/main/activemq/cmsutil/CmsTemplate.cpp:249-333 | The same operation again makes four, one, three and one: connection, session, producer, consumer and destination are there. |
| `Observed.FailedFirstSend` | activemq-cpp-library-3.9.4/src/main/activemq/cmsutil/CmsTemplate.cpp:39-64 | When the call after k others of a first send fails, no other call is made but the close of the connection if there is one; nothing was sent unless it was the last, and there is nothing again. |
| `Observed.AfterFailure` | activemq-cpp-library-3.9.4/src/main/activemq/cmsutil/CmsTemplate.cpp:175-213 | A failed operation leaves no object and no default destination of the caller, and every other property as it was. |
| `Observed.NothingTwice` | activemq-cpp-library-3.9.4/src/main/activemq/cmsutil/CmsTemplate.cpp:249-360 | Without a failure at most one connection, one session for an acknowledge mode, and one producer, consumer or destination for what a caller can ask for was ever made. |
| `Observed.PropertyInForce` | activemq-cpp-library-3.9.4/src/main/activemq/cmsutil/CmsTemplate.h:324-354 | At every point of every run, whatever failed, a property has the value of its last setter. |
| `Observed.NeverSet` | activemq-cpp-library-3.9.4/src/main/activemq/cmsutil/CmsTemplate.cpp:116-144 | A property that was never set has its default: no name, queues, AUTO_ACKNOWLEDGE, ids and timestamps on, noLocal off, timeout 0, no explicit quality of service, and PERSISTENT, 4, 0. |
| `Observed.GivenInForce` | activemq-cpp-library-3.9.4/src/main/activemq/cmsutil/CmsTemplate.h:298-354 | The default destination object of the caller is in force if and only if it was given last and since then no operation failed and no other name and no other domain was set. |
| `Observed.NeverConfigured` | activemq-cpp-library-3.9.4/src/main/activemq/cmsutil/CmsTemplate.cpp:116-144 | A template that was never configured sends with ids and timestamps and without explicit quality of service, and receives without a limit of time. |
| `Observed.AcknowledgeModes` | activemq-cpp-library-3.9.4/src/main/activemq/cmsutil/CmsTemplate.h:246-250 | Exactly the acknowledge modes 0 to 3 have a session pool. |
| `Shutdown.CounterIsExact` | activemq-cpp-library-3.9.4/src/examples/stress-test/Receiver.cpp:214-300 | In every interleaving the counter is the number of tasks queued or running, plus one for a task counted but not handed over, plus the calls lost to a throwing listener. |
| `Shutdown.NoUseAfterFree` | activemq-cpp-library-3.9.4/src/examples/stress-test/Receiver.cpp:67-83 | In every interleaving, once the receiver is freed its reader has terminated, every task has ended, and nobody can take a step. |
| `Shutdown.TemplateIsThere` | activemq-cpp-library-3.9.4/src/examples/stress-test/Receiver.cpp:238-243 | In every interleaving the reader asks the template for its timeout only while there is one. |
| `Shutdown.FreedUnlessThrown` | activemq-cpp-library-3.9.4/src/examples/stress-test/Receiver.cpp:254-267 | From any point of any run the destructor can return if and only if no counted call of the listener has thrown. |
| `Shutdown.EveryMessageIsHandled` | activemq-cpp-library-3.9.4/src/examples/stress-test/Receiver.cpp:226-262 | In every run of every mode the messages taken on are as many as the calls of the listener, the calls left out because closing was seen, and those still to come. |
| `Shutdown.NothingIsLeftOpen` | activemq-cpp-library-3.9.4/src/examples/stress-test/Receiver.cpp:67-83 | Where a closed receiver can go no further, none is still to come. |
| `Shutdown.EveryFailureIsWaitedFor` | activemq-cpp-library-3.9.4/src/examples/stress-test/Receiver.cpp:238-249 | After each failure to receive, unless it is closing, the reader asks for the timeout and waits, once each. |
| `Shutdown.ClosingIff` | activemq-cpp-library-3.9.4/src/examples/stress-test/Receiver.cpp:216-249 | A receiver is closing if and only if the owner closed it or the program was seen to quit, stays so, and takes on no message. |
| `Shutdown.EveryScheduleEnds` | activemq-cpp-library-3.9.4/src/examples/stress-test/Receiver.cpp:67-83 | Once the owner is closing, every schedule ends within a bounded number of steps, and where nobody can move any more the receiver is freed if and only if no counted call of the listener has thrown. |
| `Shutdown.BadMessageBlocks` | activemq-cpp-library-3.9.4/src/examples/stress-test/Receiver.cpp:254-267 | For every message that the listener cannot read there is a run in which it throws, the counter stays at one, and the closing owner waits where nobody can move any more. |
| `Shutdown.DirectAlwaysFrees` | activemq-cpp-library-3.9.4/src/examples/stress-test/Receiver.cpp:231-236 | Without tasks every schedule ends with the receiver freed; that the listener is called there too is Shutdown.EveryMessageIsHandled. |
| `Shutdown.RunKeepsInv` | activemq-cpp-library-3.9.4/src/examples/stress-test/MessagingTask.cpp:38-55 | The invariant of the protocol holds in every state of every run, for a pool, for a pool without threads, and without tasks. |
| `Decimal.ParsePrint` | activemq-cpp-library-3.9.4/src/examples/stress-test/TestSenderAndReceiver.cpp:100-117 | Both parsers return the number that was printed, the strict one for exactly the numbers an int can hold. |
| `Decimal.DigitOf` | activemq-cpp-library-3.9.4/src/examples/stress-test/TestSenderAndReceiver.cpp:170-182 | The k-th letter from the right of a printed number is its k-th decimal digit, and no zero is in front. |
| `Decimal.PrintedSign` | activemq-cpp-library-3.9.4/src/examples/stress-test/TestSenderAndReceiver.cpp:170-182 | A minus sign is written before negative numbers, and nothing before others. |
| `Decimal.ZerosInFront` | activemq-cpp-library-3.9.4/src/main/decaf/lang/Integer.cpp:336-370 | Zeros in front of digits do not change their value. |
| `Decimal.AtoiText` | activemq-cpp-library-3.9.4/src/examples/stress-test/TestSenderAndReceiver.cpp:100-100 | atoi reads white space, at most one sign and the digits that follow, and ignores the rest. |
| `Decimal.AtoiOfOther` | activemq-cpp-library-3.9.4/src/examples/stress-test/TestSenderAndReceiver.cpp:100-100 | A text that begins with neither gives zero. |
| `Decimal.ParsedText` | activemq-cpp-library-3.9.4/src/main/decaf/lang/Integer.cpp:241-370 | What the strict parser takes is digits with at most a minus sign, and what it refuses has no digits, another letter, or a value outside -2147483648 to 2147483647. |
| `Decimal.Parse` | activemq-cpp-library-3.9.4/src/main/decaf/lang/Integer.cpp:241-271 | An optional minus sign and digits whose value fits an int give that value, and any other text is refused. |
| `Decimal.ParseFrom` | activemq-cpp-library-3.9.4/src/main/decaf/lang/Integer.cpp:336-370 | The loop gives the same: it goes wrong at no digit, product or sign, although its 32-bit products may wrap around. |
| `SequenceCheck.ReadBuild` | activemq-cpp-library-3.9.4/src/examples/stress-test/TestSenderAndReceiver.cpp:85-119 | Every message that is built reads back as its sender and number, whatever its payload; only a sender above the thread count is refused. |
| `SequenceCheck.BuiltText` | activemq-cpp-library-3.9.4/src/examples/stress-test/TestSenderAndReceiver.cpp:170-182 | Sender 7 sends its message number 120 as "7;120;" and the payload. |
| `SequenceCheck.InvalidIff` | activemq-cpp-library-3.9.4/src/examples/stress-test/TestSenderAndReceiver.cpp:92-114 | A message is invalid if and only if it has no semicolon after a field that is not empty, the number there is above the thread count, or the rest has no semicolon after a field that is not empty. |
| `SequenceCheck.MessageIsRead` | activemq-cpp-library-3.9.4/src/examples/stress-test/TestSenderAndReceiver.cpp:100-117 | Any other message gives the sender and the number of its first two fields, or cannot be read. |
| `SequenceCheck.MessageOrNot` | activemq-cpp-library-3.9.4/src/examples/stress-test/TestSenderAndReceiver.cpp:92-117 | Every message is one or the other. |
| `SequenceCheck.ReadUnreadable` | activemq-cpp-library-3.9.4/src/examples/stress-test/TestSenderAndReceiver.cpp:107-117 | The listener throws on a message of a sender if and only if its number cannot be parsed. |
| `SequenceCheck.LetterIsUnreadable` | activemq-cpp-library-3.9.4/src/examples/stress-test/TestSenderAndReceiver.cpp:107-117 | The message "0;x;" is one that it throws on, for every thread count. |
| `SequenceCheck.LetThrough` | activemq-cpp-library-3.9.4/src/examples/stress-test/TestSenderAndReceiver.cpp:100-118 | The guard lets a message through for which the array has no place exactly if its sender is negative or equal to the thread count. |
| `SequenceCheck.TestResults.OnMessage` | activemq-cpp-library-3.9.4/src/examples/stress-test/TestSenderAndReceiver.cpp:85-144 | An invalid text counts as one invalid message, changes nothing else and ends normally; any other text counts as received. Then the call throws exactly for a number that cannot be parsed, goes outside the array exactly for a sender without a place there, and otherwise the number becomes the last of its sender. The account stays the one of all messages read so far. |
| `SequenceCheck.TestResults.Account` | activemq-cpp-library-3.9.4/src/examples/stress-test/TestSenderAndReceiver.cpp:116-141 | The message counts as received, and the account of its sender is the one of all its numbers. |
| `SequenceCheck.TestResults.Compare` | activemq-cpp-library-3.9.4/src/examples/stress-test/TestSenderAndReceiver.cpp:118-133 | The number is compared with the successor of the last one, that of 2147483647 being -2147483648, and becomes the last one. |
| `SequenceCheck.TotalsChange` | activemq-cpp-library-3.9.4/src/examples/stress-test/TestSenderAndReceiver.cpp:118-133 | Totals over all senders change by exactly what one sender contributes, so interleaving does not matter. |
| `SequenceCheck.DifferencesBound` | activemq-cpp-library-3.9.4/src/examples/stress-test/TestSenderAndReceiver.cpp:118-133 | Under any loss, repetition or reordering the difference of a sender is at least the distance of its last number from its count, for all numbers of which none before the last is the largest int. |
| `SequenceCheck.DifferencesExact` | activemq-cpp-library-3.9.4/src/examples/stress-test/TestSenderAndReceiver.cpp:118-133 | For increasing numbers it is that distance exactly when they start above 0, and otherwise more by twice the distance of the first from 1. |
| `SequenceCheck.CleanAccount` | activemq-cpp-library-3.9.4/src/examples/stress-test/TestSenderAndReceiver.cpp:119-133 | An account shows no difference, and no bad message, if and only if its numbers are 1, 2, 3 and so on; negative numbers are no exception. |
| `SequenceCheck.PerfectRun` | activemq-cpp-library-3.9.4/src/examples/stress-test/TestSenderAndReceiver.cpp:147-190 | Since senders start at 0, a delivery without a fault shows one bad message, of difference one, for each active sender. |
| `StressRun.StressTest` | activemq-cpp-library-3.9.4/src/examples/stress-test/TestSenderAndReceiver.cpp:85-217 | End to end: when what the senders sent arrives in any interleaving, no message is invalid, and exactly one bad message, of difference one, is reported for each sender that sent any. |
| `SequenceCheck.TestSender.Run` | activemq-cpp-library-3.9.4/src/examples/stress-test/TestSenderAndReceiver.cpp:147-217 | What is sent is numbered from 0 without a gap, whichever sends failed, and each payload whose send succeeds is there under the number of the successes before it. |
| `SequenceCheck.SuccessesAre` | activemq-cpp-library-3.9.4/src/examples/stress-test/TestSenderAndReceiver.cpp:186-200 | These are the sends that succeed, counted. |
| `SequenceCheck.DeliveredIsRead` | activemq-cpp-library-3.9.4/src/examples/stress-test/TestSenderAndReceiver.cpp:164-185 | What a sender sends is read as its own, with its number. |
| `BytesMessage.ReadWrittenInt` | activemq-cpp-library-3.9.4/src/main/activemq/commands/ActiveMQBytesMessage.cpp:608-608 | The length prefix is read as it was written, for every 32-bit integer. |
| `BytesMessage.ByteOrder` | activemq-cpp-library-3.9.4/src/main/decaf/io/DataOutputStream.cpp:174-188 | The four bytes are those of the two's complement, the most significant first. |
| `BytesMessage.WireForm` | activemq-cpp-library-3.9.4/src/main/activemq/commands/ActiveMQBytesMessage.cpp:588-624 | A compressed body is its length in that order and what the deflater makes of it, and any other body is itself. |
| `BytesMessage.ActiveMQBytesMessage.Write` | activemq-cpp-library-3.9.4/src/main/activemq/commands/ActiveMQBytesMessage.cpp:257-333 | Bytes are added to the body, or the message is read-only and unchanged. |
| `BytesMessage.ActiveMQBytesMessage.ClearBody` | activemq-cpp-library-3.9.4/src/main/activemq/commands/ActiveMQBytesMessage.cpp:182-191 | The body is empty and can be written. |
| `BytesMessage.ActiveMQBytesMessage.StoreContent` | activemq-cpp-library-3.9.4/src/main/activemq/commands/ActiveMQBytesMessage.cpp:588-624 | The content becomes the body, or its length and its compressed bytes, or nothing for an empty body. |
| `BytesMessage.ActiveMQBytesMessage.Reset` | activemq-cpp-library-3.9.4/src/main/activemq/commands/ActiveMQBytesMessage.cpp:200-211 | The body is kept and is read from its start; another reset only rewinds. |
| `BytesMessage.ActiveMQBytesMessage.InitializeWriting` | activemq-cpp-library-3.9.4/src/main/activemq/commands/ActiveMQBytesMessage.cpp:656-679 | Opens the stream, unless the message is read-only; compression is decided here. |
| `BytesMessage.ActiveMQBytesMessage.InitializeReading` | activemq-cpp-library-3.9.4/src/main/activemq/commands/ActiveMQBytesMessage.cpp:627-653 | Undoes the storing; fails exactly for a write-only message and for a compressed one without content. |
| `BytesMessage.ActiveMQBytesMessage.GetBodyLength` | activemq-cpp-library-3.9.4/src/main/activemq/commands/ActiveMQBytesMessage.cpp:172-179 | The number of bytes written, compressed or not. |
| `BytesMessage.ActiveMQBytesMessage.GetBodyBytes` | activemq-cpp-library-3.9.4/src/main/activemq/commands/ActiveMQBytesMessage.cpp:152-169 | The whole body, if none of it was read before. |
| `BytesMessage.Fill` | activemq-cpp-library-3.9.4/src/main/activemq/commands/ActiveMQBytesMessage.cpp:299-307 | Under every schedule of short reads the loop ends with as many bytes as there is room for and as there are, in order, at the start of the buffer. |
| `BytesMessage.ActiveMQBytesMessage.ReadBytes` | activemq-cpp-library-3.9.4/src/main/activemq/commands/ActiveMQBytesMessage.cpp:288-320 | The next bytes of the body and their number, -1 exactly when some were wanted and none are left; the rest of the buffer is untouched. |
| `BytesMessage.ReadAll` | activemq-cpp-library-3.9.4/src/main/activemq/commands/ActiveMQBytesMessage.cpp:288-320 | However a body is requested in pieces, the pieces make up its beginning. |
| `BytesMessage.RoundTrip` | activemq-cpp-library-3.9.4/src/main/activemq/commands/ActiveMQBytesMessage.cpp:588-679 | What was written in any pieces is read in any pieces, compressed or not, after any number of resets; only a compressed message to which nothing but empty writes were made cannot be read. |
| `Destinations.ActiveMQDestination.SetPhysicalName` | activemq-cpp-library-3.9.4/src/main/activemq/commands/ActiveMQDestination.cpp:93-108 | The name ends before the first question mark, and the options after it are added to those there are. It is refused exactly when one of them is wrong: then name and the options before the wrong one have changed, and memo and advisory flag have not. Otherwise the memo is cleared and the flag is set by the first letter. |
| `Destinations.ActiveMQDestination.CopyDataStructure` | activemq-cpp-library-3.9.4/src/main/activemq/commands/ActiveMQDestination.cpp:111-129 | Name, options and flags are those of the source, and the memo is cleared; a copy to itself loses the options. |
| `Destinations.NameWithOptions` | activemq-cpp-library-3.9.4/src/main/activemq/commands/ActiveMQDestination.cpp:93-108 | Options written after a name are read from it, the last one for a key, and the name stays as it is. |
| `Destinations.AdvisoryFlag` | activemq-cpp-library-3.9.4/src/main/activemq/commands/ActiveMQDestination.cpp:104-104 | The flag is right exactly for advisory names and for names that do not begin with a letter of the prefix; so it is wrong for "test", which it calls advisory. |
| `Destinations.StaleChildren` | activemq-cpp-library-3.9.4/src/main/activemq/commands/ActiveMQDestination.cpp:93-105 | After a name with a wrong option was refused, a destination has the new name and answers with the children of the old one. |
| `Destinations.OtherChildren` | activemq-cpp-library-3.9.4/src/main/activemq/commands/ActiveMQDestination.cpp:247-263 | These may be wrong: "a,b" has children, and "c,d" has others. |
| `QueryOptions.ParseQuery` | activemq-cpp-library-3.9.4/src/main/activemq/util/URISupport.cpp:112-161 | The loop stores the parameters up to the first wrong one. |
| `QueryOptions.GoodIff` | activemq-cpp-library-3.9.4/src/main/activemq/util/URISupport.cpp:133-155 | A query is refused if and only if one of its parameters is not a key and a value, or its value names no set variable. |
| `QueryOptions.ParamText` | activemq-cpp-library-3.9.4/src/main/activemq/util/URISupport.cpp:133-155 | A parameter is stored if and only if it has two parts around an equals sign and the value is accepted. |
| `QueryOptions.EmptyParts` | activemq-cpp-library-3.9.4/src/main/decaf/util/StringTokenizer.cpp:73-105 | Empty parts do not count. |
| `QueryOptions.EnvironmentText` | activemq-cpp-library-3.9.4/src/main/activemq/util/URISupport.cpp:164-194 | A value that begins with a dollar stands for the variable between its third and its last letter, and is refused if that is not set, or if both brackets are missing around a name. |
| `QueryOptions.PlainValue` | activemq-cpp-library-3.9.4/src/main/activemq/util/URISupport.cpp:164-194 | Any other value stands for itself. |
| `QueryOptions.BeforeQuestionMark` | activemq-cpp-library-3.9.4/src/main/activemq/util/URISupport.cpp:121-125 | What comes before a question mark in a query does not matter. |
| `QueryOptions.ParsePrintedQuery` | activemq-cpp-library-3.9.4/src/main/activemq/util/URISupport.cpp:112-161 | Options without separators that are printed as a query are read again, over those that there were. |
| `Destinations.QualifierIsRecognised` | activemq-cpp-library-3.9.4/src/main/activemq/commands/ActiveMQDestination.cpp:48-51 | Each printed qualifier is recognised as itself and as no other; which texts they are is Destinations.QualifiedText. |
| `Destinations.QualifiedText` | activemq-cpp-library-3.9.4/src/main/activemq/commands/ActiveMQDestination.cpp:186-201 | "queue://", "topic://", "temp-queue://" and "temp-topic://" before any text make a queue, a topic, a temporary queue and a temporary topic, whatever the default. |
| `Destinations.PrintedText` | activemq-cpp-library-3.9.4/src/main/activemq/commands/ActiveMQDestination.cpp:132-144 | A queue, a topic, a temporary queue and a temporary topic are printed with these texts before their names. |
| `Destinations.PlainText` | activemq-cpp-library-3.9.4/src/main/activemq/commands/ActiveMQDestination.cpp:203-221 | Any other text is the name of a destination of the default kind, without what comes after a question mark. |
| `Destinations.TemporaryText` | activemq-cpp-library-3.9.4/src/main/activemq/commands/ActiveMQDestination.cpp:168-183 | A temporary name is the client id between "{TD{" and "}TD}", and only temporary destinations have a client id. |
| `Destinations.ParsePrinted` | activemq-cpp-library-3.9.4/src/main/activemq/commands/ActiveMQDestination.cpp:132-144 | A printed destination is parsed as itself under every default kind if and only if its name has no question mark, even when its name begins with a qualifier; it cannot be created exactly if its options are wrong. |
| `Destinations.ParsePrintParse` | activemq-cpp-library-3.9.4/src/main/activemq/commands/ActiveMQDestination.cpp:186-221 | Parsing any text, printing and parsing again gives the same destination, with any default kind and environment, if the text can be parsed at all. |
| `Destinations.ClientIdRoundTrip` | activemq-cpp-library-3.9.4/src/main/activemq/commands/ActiveMQDestination.cpp:168-183 | The client id comes back from a temporary name if and only if it has no question mark, whatever markers it contains. |
| `Destinations.ChildrenAreSimple` | activemq-cpp-library-3.9.4/src/main/activemq/commands/ActiveMQDestination.cpp:247-263 | One child for each distinct trimmed field that is not empty, in the order of the fields as texts; no child is composite. |
| `Destinations.ChildrenDependOnFields` | activemq-cpp-library-3.9.4/src/main/activemq/commands/ActiveMQDestination.cpp:247-263 | The children depend on the set of trimmed fields only: not on order, duplicates or empty fields. |
| `Destinations.TrimPadded` | activemq-cpp-library-3.9.4/src/main/activemq/commands/ActiveMQDestination.cpp:57-70 | Blanks and tabs around a field do not matter. |
| `Destinations.TrimmedText` | activemq-cpp-library-3.9.4/src/main/activemq/commands/ActiveMQDestination.cpp:57-70 | Exactly the blanks and tabs on both sides are cut off. |
| `Destinations.LessIs` | activemq-cpp-library-3.9.4/src/main/activemq/commands/ActiveMQDestination.cpp:249-262 | That order: a text comes before those that it begins, and otherwise the first different letter decides. |
| `Destinations.EqualCreations` | activemq-cpp-library-3.9.4/src/main/activemq/commands/ActiveMQDestination.cpp:186-221 | Two different names make the same destination if and only if one is the other, which has no qualifier, with the qualifier of the default kind before it. |
| `Destinations.EqualChildren` | activemq-cpp-library-3.9.4/src/main/activemq/commands/ActiveMQDestination.cpp:249-263 | Two children of a composite destination are equal under exactly that condition on their fields. |
| `Destinations.ChildrenAreCreated` | activemq-cpp-library-3.9.4/src/main/activemq/commands/ActiveMQDestination.cpp:259-262 | No child of a destination is ever refused for its options. |
| `Destinations.TwoEqualChildren` | activemq-cpp-library-3.9.4/src/main/activemq/commands/ActiveMQDestination.cpp:249-263 | For every kind and every name without a qualifier, the name with the qualifier of the kind and the name itself make two equal children. |
| `Destinations.ActiveMQDestination.GetCompositeDestinations` | activemq-cpp-library-3.9.4/src/main/activemq/commands/ActiveMQDestination.cpp:241-266 | Answers with the memo, or makes the children of the current name and keeps them; so the answer is right exactly when the memo was empty or right. |
| `ContractList.UnfilledSlot` | Project1/Project1/MdCommander.cpp:71-81 | As many slots as separators plus one; all but the last are filled, and the last stays unfilled exactly when the text is empty or ends with the separator. |
| `ContractList.Recovered` | Project1/Project1/MdCommander.cpp:70-82 | A joined list of contracts without separators and NULs is recovered exactly if and only if its last contract is not empty. |
| `ContractList.CutAtNul` | Project1/Project1/MdCommander.cpp:76-80 | A contract with a NUL is kept up to the NUL. |
| `ContractList.GetContractArray` | Project1/Project1/MdCommander.cpp:70-82 | Fills the slots, and no more than were allocated. |

## Left out

The resource machine:

- Pooled sessions and session resolvers are values at their place in their pool or map instead of heap objects; a pointer to one is that place. Their allocation, use and deletion are in the log, but aliasing of their fields is not modelled.
- The acknowledge mode INDIVIDUAL_ACKNOWLEDGE has no session pool and is excluded by the preconditions.
- Callbacks do not call back into the template, and do not close the session or producer they are given. What they do with them is one call that may fail.
- The destination resolver is the default one, is not null and is not exchanged, and its destroy does not throw.
- Exceptions thrown by destructors and failed allocations. A failed close of a connection is modelled; the source ignores it.
- A destination object that a caller supplies lives as long as the template uses it, and is not one of the template's own.
- A received message is not an object of the log: it belongs to the caller, and a receive may also return none.
- Locks, the `setMark` stack traces, and the messages of exceptions. An exception is a CMSException or anything else.
- The order in which the values of a cache or of the resolver's map are deleted, which the source leaves to its map classes.
- Kinds of destinations: a temporary queue or topic shares the cache key of the queue or topic with its name, as in the source; the key lemmas say so.
- `QueueBrowser`s, the other methods of `PooledSession` that only pass on to the session, and the getters of the template.
- Shutdown safety of `cmstemplate-stress`, whose getter overwrites the counter.

The stress test:

- Shutdown starts with a registered listener and a running reader; `registerMessageListener` tests its parameter instead of the field and never gets that far. The retry loop of `receiveMessage` is one step with any result.
- Sections under `mutexGeneral`, and single reads and writes of `closing`, are atomic. The pool accepts every task.
- Messages are accounted for one at a time; the increment and the later set of a sender's last number are not one atomic step in the source.
- SequenceCheck.TestResults.OnMessage: what memory holds after an access outside the array is not modelled; the account is the one just before it.
- The counters and the differences are unbounded integers, and so is the result of `atoi`; the successor of a sender's last number wraps around as in the source.
- `Integer::parseInt` with another radix than ten. The overflow of a signed product in `Integer::parse` (`activemq-cpp-library-3.9.4/src/main/decaf/lang/Integer.cpp:353`) is taken to wrap around.
- Sequence numbers after the largest int: its successor is the smallest int, and the laws of the account ask that no number before the last is the largest.

The bytes message:

- BytesMessage.ActiveMQBytesMessage.Write: requires that the body stays within 2147483647 bytes, the range of its length counter. The encodings of the single value types are left to the stream.
- BytesMessage.ActiveMQBytesMessage.GetBodyBytes: after a partial read only the first bytes of the result are known, as in the source.
- Deflater and inflater are an abstract pair of inverse functions; a deflater has put out at least one byte once it was given one.
- Writes with an offset, writing on after `onSend` or a copy without a reset, and content that arrives from the wire.
- A connection whose compression setting changes during the life of a message.

Destinations and contracts:

- The hash code, and comparison. The environment is a function; a variable that is not set, or set to nothing, is refused.
- `StringTokenizer` (`activemq-cpp-library-3.9.4/src/main/decaf/util/StringTokenizer.cpp:66-124`) and `StlSet` (`activemq-cpp-library-3.9.4/src/main/decaf/util/StlSet.h`) are modelled by what they yield: the non-empty fields between separators, and the elements in the order of `std::less`. Children are values and have no memo of their own.
- The rest of `MdCommander`: commands, subscriptions and who frees the array. A slot that is not filled holds an unspecified pointer in the source and nothing here.
- `ActiveMQMapMessage`, `ActiveMQObjectMessage`, the broker, the network and the trading interface.

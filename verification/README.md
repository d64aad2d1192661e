# apiman gateway core, modelled in Dafny

This project models the decision logic of six pieces of the apiman API
gateway:

- **Elasticsearch connection poller** (`EsPoller`, `es_poller.dfy`). It probes
  cluster health on a fixed schedule until a probe is healthy, a fatal error
  occurs, or the deadline passes.
- **Elasticsearch client factory** (`EsClientFactory`, `es_client_factory.dfy`).
  It caches clients under a key built from host, port and index prefix. It
  configures SSL for `https`, waits for the cluster, and caches only clients
  whose wait succeeded.
- **Infinispan data store component** (`DataStore`, `data_store.dfy`). It is a
  property store keyed by (namespace, name) that answers through one-shot
  result handlers.
- **Policy context contract** (`PolicyContext`, `policy_context.dfy`). It holds
  attributes, components by type, and a connector-interceptor slot that can be
  written once.
- **WAR engine configuration** (`WarConfig`, `war_config.dfy`). It covers
  class-name lookups per role, the prefixed configuration maps, and the
  `pluginsDir` override.
- **Service REST resource** (`ServiceResource`, `service_resource.dfy`). It turns
  the registry's asynchronous `publish`/`retire` result into a normal return,
  a rethrown engine exception, or a wrapped exception.

`Common` (`common.dfy`) holds the shared types: `Option`, `Result`, the Java
throwables that cross component boundaries, and `AsyncResult`.

The model replaces outside effects with parameters:

- Threads, clocks and the network become a probe oracle `nat -> ProbeOutcome`.
  Probe `k` is due at `max(0, initialDelay) + k * period` seconds and runs
  exactly when that time is strictly before the deadline.
- JNDI and cache exceptions become a `Fault` parameter. The caller's result
  handler becomes a `Handler` saying what it throws on its first and second
  call.
- The file system and keystore loading become an `SslEnvironment`.
- Class loaders become the sets of class names they can find.
- The registry's asynchronous behaviour becomes a `Completion`.

Where the behaviour of the code differs from a natural reading of the
component's documented intent, the model follows the code:

- A fatal probe (`ElasticsearchException`, `SSLException`) makes
  `blockUntilReady` throw a `FailedPollingException` whose cause is the
  `CancellationException` from `future.get`. The cause is not the recorded
  `latestException`, which is read only on the unreachable "returned normally
  but not successful" path.
- A timeout raises `FailedPollingException(TimeoutException)`, not the last
  transient error.
- `getProperty` evaluates `getCache().containsKey` outside its `try`. See
  Findings.
- On a timeout, `blockUntilReady` throws without cancelling the periodic
  future, so probing goes on after the caller has its answer. See Findings.
- In the data store, a result handler that throws inside a `try` is called a
  second time, by the `catch`, with its own exception. What it throws then
  escapes. In `getProperty` the default value is answered outside the `try`,
  so a handler throwing there is not called again.

## Model

| member | source | states |
|---|---|---|
| EsPoller.Poll | common/es/src/main/java/io/apiman/common/es/util/EsConnectionPoller.java:94-138 | One probe keeps the future running exactly for a timed-out health answer or an I/O error, cancels it for a healthy answer or a fatal error, and leaves the poll successful exactly when the answer was healthy or it already was and the error is not fatal |
| EsPoller.HealthyProbeSucceeds | common/es/src/main/java/io/apiman/common/es/util/EsConnectionPoller.java:104-108 | A healthy, non-timed-out answer marks the poll successful, cancels the future, and leads blockUntilReady to return normally |
| EsPoller.TimedOutHealthChangesNothing | common/es/src/main/java/io/apiman/common/es/util/EsConnectionPoller.java:102-108 | A timed-out health answer leaves the state unchanged and polling continues |
| EsPoller.ElasticsearchErrorIsFatal | common/es/src/main/java/io/apiman/common/es/util/EsConnectionPoller.java:109-112 | An Elasticsearch error is recorded as the latest error, clears success and stops polling |
| EsPoller.SslErrorIsFatal | common/es/src/main/java/io/apiman/common/es/util/EsConnectionPoller.java:113-118 | An SSL error is recorded wrapped as an unchecked I/O error and stops polling unsuccessfully |
| EsPoller.IoErrorIsTransient | common/es/src/main/java/io/apiman/common/es/util/EsConnectionPoller.java:119-124 | Any other I/O error is recorded as the latest error while polling continues |
| EsPoller.TerminalIsStable | common/es/src/main/java/io/apiman/common/es/util/EsConnectionPoller.java:135-138 | Once the future is cancelled, no further probe changes the state |
| EsPoller.TransientsKeepPolling | common/es/src/main/java/io/apiman/common/es/util/EsConnectionPoller.java:119-124 | A run of transient probes keeps the future running and the success flag unchanged; the latest error is the newest I/O error, or unchanged if there was none |
| EsPoller.DriveStopsAtDecisive | common/es/src/main/java/io/apiman/common/es/util/EsConnectionPoller.java:104-124 | The first non-transient probe decides the state; later probes have no effect |
| EsPoller.SlotsAreDueBeforeDeadline | common/es/src/main/java/io/apiman/common/es/util/EsConnectionPoller.java:75-78 | Probe k is among the scheduled ones exactly when its due time is strictly before the deadline |
| EsPoller.Trace | common/es/src/main/java/io/apiman/common/es/util/EsConnectionPoller.java:75-76 | The scheduled run sees exactly the first n outcomes of the probe oracle, in order |
| EsPoller.Conclude | common/es/src/main/java/io/apiman/common/es/util/EsConnectionPoller.java:77-91 | After the wait, readiness holds exactly when the poll succeeded and the wait did not time out; a timeout raises the timeout cause; a cancelled or interrupted wait without success raises that exception; a normal return without success raises the latest error |
| EsPoller.FirstDecisive | common/es/src/main/java/io/apiman/common/es/util/EsConnectionPoller.java:104-124 | Finds the index of the first probe that ends polling, with every earlier probe transient; returns none exactly when all probes are transient |
| EsPoller.BlockUntilReady | common/es/src/main/java/io/apiman/common/es/util/EsConnectionPoller.java:74-92 | A non-positive period is rejected; otherwise the outcome is decided by the first decisive probe due before the deadline (healthy: return; fatal: cancellation; uncaught: execution failure), or is a timeout if there is none |
| EsPoller.ConcludeAfterDrive | common/es/src/main/java/io/apiman/common/es/util/EsConnectionPoller.java:77-124 | From a fresh poller, the scheduled probes leave the future running exactly when none was decisive, and the wait then times out; otherwise the first decisive probe decides |
| EsPoller.ReadyIff | common/es/src/main/java/io/apiman/common/es/util/EsConnectionPoller.java:74-92 | blockUntilReady returns normally exactly when some probe due before the deadline is healthy and every earlier one is transient |
| EsPoller.AllTransientTimesOut | common/es/src/main/java/io/apiman/common/es/util/EsConnectionPoller.java:87-91 | With only transient probes before the deadline, the failure carries the timeout as its cause, and the future is left running after the exception is thrown |
| EsPoller.PollerAfterAsWritten | common/es/src/main/java/io/apiman/common/es/util/EsConnectionPoller.java:74-92 | As written, the periodic task is still scheduled after blockUntilReady exactly when the wait timed out |
| EsPoller.TimedOutPollerKeepsProbing | common/es/src/main/java/io/apiman/common/es/util/EsConnectionPoller.java:87-91 | As written, a probe that runs after the timeout exception has been thrown still updates the latest error |
| EsPoller.PollerAfter | common/es/src/main/java/io/apiman/common/es/util/EsConnectionPoller.java:87-91 | Corrected: with the timeout branch cancelling the future, no task is left scheduled after blockUntilReady, and the success flag and latest error are those the wait saw |
| EsPoller.NoProbeAfterWait | common/es/src/main/java/io/apiman/common/es/util/EsConnectionPoller.java:87-91 | Corrected: no probe changes the poller once blockUntilReady has returned or thrown |
| EsPoller.RunNeverCompletesNormally | common/es/src/main/java/io/apiman/common/es/util/EsConnectionPoller.java:78-81 | A fixed-rate future never completes normally, whatever the poller's state, so the throw of latestException after a normal return is unreachable |
| EsPoller.RunScheduler | common/es/src/main/java/io/apiman/common/es/util/EsConnectionPoller.java:74-92 | A clock-driven loop, one probe per period while the next due time is before the deadline, gives the same outcome as the declarative schedule; it runs probes up to and including the first decisive one, or all scheduled ones, and with the corrected timeout branch leaves no task scheduled |
| EsClientFactory.DecimalRoundTrip | common/es/src/main/java/io/apiman/common/es/util/DefaultEsClientFactory.java:94 | The decimal text of the port in the client key reads back as the port |
| EsClientFactory.IntToDecimalInjective | common/es/src/main/java/io/apiman/common/es/util/DefaultEsClientFactory.java:94 | Distinct ports, negative ones included, give distinct text in the key |
| EsClientFactory.ClientKeyInjective | common/es/src/main/java/io/apiman/common/es/util/DefaultEsClientFactory.java:94 | For host names without a colon, equal client keys mean equal host, port and index prefix |
| EsClientFactory.ClientKeyAmbiguousForColonHosts | common/es/src/main/java/io/apiman/common/es/util/DefaultEsClientFactory.java:94 | Without that condition, two different targets can share a key |
| EsClientFactory.ClientKey | common/es/src/main/java/io/apiman/common/es/util/DefaultEsClientFactory.java:94 | The key is the es: tag, the host, a colon, the port, a slash and the index prefix, so the host sits right after the tag and the prefix ends the key; ClientKeyInjective shows that colon-free targets never share a key |
| EsClientFactory.RequiredString | common/es/src/main/java/io/apiman/common/es/util/DefaultEsClientFactory.java:164-167 | A required option succeeds exactly when it is present and, for a path, the file exists; it yields the value |
| EsClientFactory.UpdateSslConfig | common/es/src/main/java/io/apiman/common/es/util/DefaultEsClientFactory.java:159-204 | SSL setup succeeds exactly when both store paths exist, both passwords are given, and the stores load; self-signed trust exactly when allowSelfSigned is true; the no-op hostname verifier exactly when allowAnyHost is true |
| EsClientFactory.SslFlagsDefaultToFalse | common/es/src/main/java/io/apiman/common/es/util/DefaultEsClientFactory.java:160-161 | Absent flags mean store-based trust and the default hostname verifier |
| EsClientFactory.SelfSignedStillNeedsStores | common/es/src/main/java/io/apiman/common/es/util/DefaultEsClientFactory.java:164-167 | Allowing self-signed certificates does not make the truststore optional |
| EsClientFactory.WaitForElasticsearch | common/es/src/main/java/io/apiman/common/es/util/DefaultEsClientFactory.java:145-149 | The wait succeeds exactly when the polling time fits in an int and some probe at 0, 5, 10, ... seconds, before the polling time, is healthy with every earlier one transient |
| EsClientFactory.CreateEsClient | common/es/src/main/java/io/apiman/common/es/util/DefaultEsClientFactory.java:81-143 | Indices are initialised exactly when requested, whether the client was cached or new; a call either hits the cache or polls, never both |
| EsClientFactory.CacheHitReusesClient | common/es/src/main/java/io/apiman/common/es/util/DefaultEsClientFactory.java:94-100 | A cache hit returns the cached client, leaves the cache as it was, and neither configures SSL nor polls |
| EsClientFactory.CacheMissCachesOnlyReadyClients | common/es/src/main/java/io/apiman/common/es/util/DefaultEsClientFactory.java:101-135 | On a miss the new client is returned in every case and is cached exactly when the wait succeeded |
| EsClientFactory.SecondCallReusesOnlyAfterReady | common/es/src/main/java/io/apiman/common/es/util/DefaultEsClientFactory.java:94-135 | A repeated call with the same options reuses the first client if its wait succeeded, and builds and polls a new one otherwise |
| EsClientFactory.SslOnlyForHttps | common/es/src/main/java/io/apiman/common/es/util/DefaultEsClientFactory.java:119-121 | On a miss, SSL is configured exactly for the protocol https in any case; its failure escapes createEsClient |
| EsClientFactory.HttpsSpellings | common/es/src/main/java/io/apiman/common/es/util/DefaultEsClientFactory.java:119 | HTTPS and Https select SSL, http does not, and a trailing long s counts as s under Java's case-insensitive comparison |
| DataStore.Configure | gateway/engine/ispn/src/main/java/io/apiman/gateway/engine/ispn/InfinispanDataStoreComponent.java:60-70 | A missing cache-container or cache key leaves that setting at its default |
| DataStore.EmptyConfigIsDefault | gateway/engine/ispn/src/main/java/io/apiman/gateway/engine/ispn/InfinispanDataStoreComponent.java:40-70 | An empty configuration equals the no-argument constructor, whose defaults are the apiman-gateway container and the data-store cache |
| DataStore.ConfigKeysAreIndependent | gateway/engine/ispn/src/main/java/io/apiman/gateway/engine/ispn/InfinispanDataStoreComponent.java:64-69 | Each key overrides only its own setting, with exactly the configured value |
| DataStore.HasProperty | gateway/engine/ispn/src/main/java/io/apiman/gateway/engine/ispn/InfinispanDataStoreComponent.java:76-79 | Answers true exactly for a stored (namespace, name) key; a failing lookup or containsKey is thrown, not answered |
| DataStore.GetPropertyAsWritten | gateway/engine/ispn/src/main/java/io/apiman/gateway/engine/ispn/InfinispanDataStoreComponent.java:86-100 | As written: a failing lookup or containsKey is thrown and the handler never runs; otherwise the first answer is an error exactly when the get fails, the handler is called a second time only when it throws on a stored value answered inside the try, and what it throws on its last call escapes; the cache is unchanged |
| DataStore.GetProperty | gateway/engine/ispn/src/main/java/io/apiman/gateway/engine/ispn/InfinispanDataStoreComponent.java:86-100 | Corrected: the handler is always called, first with an error exactly when the environment fails on the path taken; a store failure never escapes, only what the handler throws on its last call does, and a second call carries the handler's own exception |
| DataStore.SetPropertyWithExpiry | gateway/engine/ispn/src/main/java/io/apiman/gateway/engine/ispn/InfinispanDataStoreComponent.java:115-128 | The handler is always called, first with an error exactly when the lookup or the put fails (and then the cache is unchanged); a handler that throws on a successful answer is called again with its own exception; only what it throws on its last call escapes |
| DataStore.SetProperty | gateway/engine/ispn/src/main/java/io/apiman/gateway/engine/ispn/InfinispanDataStoreComponent.java:106-108 | The four-argument form is the five-argument form without an expiration |
| DataStore.ClearProperty | gateway/engine/ispn/src/main/java/io/apiman/gateway/engine/ispn/InfinispanDataStoreComponent.java:135-143 | The handler is always called, first with an error exactly when the lookup or the remove fails (and then the cache is unchanged); a handler that throws on a successful answer is called again with its own exception; only what it throws on its last call escapes |
| DataStore.NamespacesAreDistinct | gateway/engine/ispn/src/main/java/io/apiman/gateway/engine/ispn/InfinispanDataStoreComponent.java:116-122 | Writing a name in one namespace leaves the same name in another namespace untouched |
| DataStore.GetDeliversStoredOrDefault | gateway/engine/ispn/src/main/java/io/apiman/gateway/engine/ispn/InfinispanDataStoreComponent.java:88-99 | Whatever the handler does, getProperty first answers the stored value for a present key and the caller's default for an absent one |
| DataStore.SetThenGet | gateway/engine/ispn/src/main/java/io/apiman/gateway/engine/ispn/InfinispanDataStoreComponent.java:115-128 | setProperty first answers the previous value, or null, and a following getProperty answers the new value |
| DataStore.SetKeepsOtherKeys | gateway/engine/ispn/src/main/java/io/apiman/gateway/engine/ispn/InfinispanDataStoreComponent.java:115-128 | setProperty changes no other key |
| DataStore.ClearRemoves | gateway/engine/ispn/src/main/java/io/apiman/gateway/engine/ispn/InfinispanDataStoreComponent.java:135-143 | clearProperty first answers the removed value, or null; afterwards the key is absent and getProperty answers the default |
| DataStore.FailuresAreDelivered | gateway/engine/ispn/src/main/java/io/apiman/gateway/engine/ispn/InfinispanDataStoreComponent.java:90-95 | A failing lookup or cache access during set or clear, or during get once containsKey has answered, is delivered to the handler as an error, the cache is unchanged, and only what the handler throws on it escapes |
| DataStore.GetPropertyLookupFailureEscapes | gateway/engine/ispn/src/main/java/io/apiman/gateway/engine/ispn/InfinispanDataStoreComponent.java:88-89 | As written, a JNDI lookup failure in getProperty is thrown and the handler is never called, while the corrected form delivers it |
| DataStore.QuietHandlerAnswersOnce | gateway/engine/ispn/src/main/java/io/apiman/gateway/engine/ispn/InfinispanDataStoreComponent.java:86-143 | With a handler that never throws, set, clear and the corrected get answer exactly once and throw nothing; get as written answers once or throws, never both |
| DataStore.ThrowingHandlerIsCalledTwice | gateway/engine/ispn/src/main/java/io/apiman/gateway/engine/ispn/InfinispanDataStoreComponent.java:115-143 | A handler that throws on a successful set or clear is called a second time with its own exception, the write stands, and the second call's exception escapes |
| DataStore.GetPropertyHandlerFailureByBranch | gateway/engine/ispn/src/main/java/io/apiman/gateway/engine/ispn/InfinispanDataStoreComponent.java:90-98 | As written, a handler throwing on the default answer is not called again and its exception escapes after it answered; one throwing on a stored value is called again |
| DataStore.GetPropertyAgreesWithoutLookupFailure | gateway/engine/ispn/src/main/java/io/apiman/gateway/engine/ispn/InfinispanDataStoreComponent.java:86-100 | The correction agrees with the code as written whenever containsKey can be reached, except that a handler throwing on the default answer is called again instead of throwing to the caller |
| DataStore.ReplayKeepsUntouchedKey | gateway/engine/ispn/src/main/java/io/apiman/gateway/engine/ispn/InfinispanDataStoreComponent.java:115-143 | A sequence of puts and removes that never touches a key leaves that key as it was |
| DataStore.ReplayLastWriteWins | gateway/engine/ispn/src/main/java/io/apiman/gateway/engine/ispn/InfinispanDataStoreComponent.java:115-143 | After a sequence of puts and removes, a key holds what its last write left: the value and lifespan of a put, or absence after a remove |
| PolicyContext.SetAttribute | gateway/engine/core/src/main/java/io/apiman/gateway/engine/policy/IPolicyContext.java:30-36 | Setting an attribute adds its name and changes neither components nor interceptor |
| PolicyContext.GetAttribute | gateway/engine/core/src/main/java/io/apiman/gateway/engine/policy/IPolicyContext.java:38-43 | An attribute that is not set reads as the supplied default |
| PolicyContext.RemoveAttribute | gateway/engine/core/src/main/java/io/apiman/gateway/engine/policy/IPolicyContext.java:45-49 | Reports true exactly when the attribute was present; afterwards the name is gone and nothing else changes |
| PolicyContext.GetComponent | gateway/engine/core/src/main/java/io/apiman/gateway/engine/policy/IPolicyContext.java:51-57 | Succeeds exactly for a registered component type; otherwise it fails with ComponentNotFound for that type |
| PolicyContext.SetConnectorInterceptor | gateway/engine/core/src/main/java/io/apiman/gateway/engine/policy/IPolicyContext.java:59-64 | Succeeds exactly when no interceptor is registered yet; otherwise it fails with InterceptorAlreadyRegistered |
| PolicyContext.SetThenGet | gateway/engine/core/src/main/java/io/apiman/gateway/engine/policy/IPolicyContext.java:30-43 | After setAttribute(name, v), getAttribute(name, d) yields v and other names read as before |
| PolicyContext.FreshContextYieldsDefault | gateway/engine/core/src/main/java/io/apiman/gateway/engine/policy/IPolicyContext.java:38-43 | In a fresh context every name reads as the supplied default |
| PolicyContext.RemoveThenGet | gateway/engine/core/src/main/java/io/apiman/gateway/engine/policy/IPolicyContext.java:38-49 | After removeAttribute, the name reads as the default, a second removal reports false, and other names are unchanged |
| PolicyContext.SetThenRemove | gateway/engine/core/src/main/java/io/apiman/gateway/engine/policy/IPolicyContext.java:30-49 | Removing a name just set reports true and restores the other attributes |
| PolicyContext.ComponentLookup | gateway/engine/core/src/main/java/io/apiman/gateway/engine/policy/IPolicyContext.java:51-57 | getComponent returns the registered component, and attribute writes do not affect it |
| PolicyContext.RegisterAll | gateway/engine/core/src/main/java/io/apiman/gateway/engine/policy/IPolicyContext.java:59-64 | Successive registrations report one success flag per call |
| PolicyContext.FilledSlotRejectsAll | gateway/engine/core/src/main/java/io/apiman/gateway/engine/policy/IPolicyContext.java:59-64 | Once the slot is filled, every later registration fails and the context is unchanged |
| PolicyContext.OnlyFirstRegistrationSucceeds | gateway/engine/core/src/main/java/io/apiman/gateway/engine/policy/IPolicyContext.java:59-69 | Starting from an empty slot, exactly the first registration succeeds and getConnectorInterceptor returns it; with no registration it returns none |
| WarConfig.GetConfigMap | gateway/platforms/war/src/main/java/io/apiman/gateway/platforms/war/WarEngineConfig.java:214-226 | Iterating the keys under a prefix in any order builds the map from each configured short key to its value, and it has no more entries than keys |
| WarConfig.VisitKey | gateway/platforms/war/src/main/java/io/apiman/gateway/platforms/war/WarEngineConfig.java:218-223 | One loop step keeps the partial map equal to the prefixed view of the keys visited so far: the prefix itself adds nothing, any other key adds its suffix after the separator with its configured value |
| WarConfig.ConfigMapInsert | gateway/platforms/war/src/main/java/io/apiman/gateway/platforms/war/WarEngineConfig.java:222-223 | Configuring one more key below the prefix adds exactly its short key with that value to the prefixed map and changes nothing else |
| WarConfig.ConfigMapExact | gateway/platforms/war/src/main/java/io/apiman/gateway/platforms/war/WarEngineConfig.java:214-226 | A short key is in the prefixed map exactly when prefix.key is configured, and it maps to that value |
| WarConfig.PrefixKeyIsSkipped | gateway/platforms/war/src/main/java/io/apiman/gateway/platforms/war/WarEngineConfig.java:219-221 | A value stored under the prefix itself never reaches the map |
| WarConfig.OutsideKeysAreIgnored | gateway/platforms/war/src/main/java/io/apiman/gateway/platforms/war/WarEngineConfig.java:216 | Keys neither equal to the prefix nor below it do not affect the map |
| WarConfig.ConfigMapAgreesWithProperty | gateway/platforms/war/src/main/java/io/apiman/gateway/platforms/war/WarEngineConfig.java:79-81 | Each entry of a prefixed map equals what getConfigProperty returns for its full key |
| WarConfig.GetConfigProperty | gateway/platforms/war/src/main/java/io/apiman/gateway/platforms/war/WarEngineConfig.java:79-81 | Returns the configured value, or the default when the key is missing |
| WarConfig.LoadConfigClass | gateway/platforms/war/src/main/java/io/apiman/gateway/platforms/war/WarEngineConfig.java:188-206 | Loading succeeds exactly when the role's key names a class that the context loader or Class.forName finds; the loaded class is the configured one |
| WarConfig.MissingClassNameIsAnError | gateway/platforms/war/src/main/java/io/apiman/gateway/platforms/war/WarEngineConfig.java:189-192 | A missing class name gives "no class configured" for the role's type, whatever the loaders hold |
| WarConfig.ComponentKeys | gateway/platforms/war/src/main/java/io/apiman/gateway/platforms/war/WarEngineConfig.java:172-182 | A component's class and configuration are both read under apiman-gateway.components. plus the interface's simple name |
| WarConfig.PluginsDirOverride | gateway/platforms/war/src/main/java/io/apiman/gateway/platforms/war/WarEngineConfig.java:111-118 | The plugin-registry map is the prefixed map, except that a pluginsDir system property replaces the pluginsDir entry |
| ServiceResource.Handle | gateway/api/rest-impl/src/main/java/io/apiman/gateway/api/rest/impl/ServiceResourceImpl.java:53-61 | The handler appends the error of an error result, records nothing else, and counts the latch down once, stopping at zero |
| ServiceResource.RaiseRecorded | gateway/api/rest-impl/src/main/java/io/apiman/gateway/api/rest/impl/ServiceResourceImpl.java:67-74 | Returns exactly when no error was recorded; otherwise it throws the first recorded error, either as it is or wrapped |
| ServiceResource.Bridge | gateway/api/rest-impl/src/main/java/io/apiman/gateway/api/rest/impl/ServiceResourceImpl.java:51-74 | The call hangs exactly when the handler is never called, returns exactly when it is called with a success, rethrows an engine error as is, and wraps any other error and an interrupted wait in a RuntimeException |
| ServiceResource.Publish | gateway/api/rest-impl/src/main/java/io/apiman/gateway/api/rest/impl/ServiceResourceImpl.java:50-53 | publish hands the registry the service it was given, unchanged |
| ServiceResource.RetireRequest | gateway/api/rest-impl/src/main/java/io/apiman/gateway/api/rest/impl/ServiceResourceImpl.java:85-88 | The retire request carries the three ids and no endpoint or endpoint type |
| ServiceResource.Retire | gateway/api/rest-impl/src/main/java/io/apiman/gateway/api/rest/impl/ServiceResourceImpl.java:81-89 | retire sends the registry the service built from its arguments |
| ServiceResource.HandlerRecordsOnlyErrors | gateway/api/rest-impl/src/main/java/io/apiman/gateway/api/rest/impl/ServiceResourceImpl.java:53-61 | Called once on the armed state, the handler releases the latch and records an error exactly for an error result |
| ServiceResource.ReturnsIffSuccess | gateway/api/rest-impl/src/main/java/io/apiman/gateway/api/rest/impl/ServiceResourceImpl.java:55-75 | The call returns normally exactly when the handler ran with a non-error result, and blocks forever exactly when it never ran |
| ServiceResource.EngineErrorRethrown | gateway/api/rest-impl/src/main/java/io/apiman/gateway/api/rest/impl/ServiceResourceImpl.java:68-70 | An AbstractEngineException result is rethrown unchanged |
| ServiceResource.OtherErrorWrapped | gateway/api/rest-impl/src/main/java/io/apiman/gateway/api/rest/impl/ServiceResourceImpl.java:71-72 | Any other error result is thrown as a RuntimeException caused by that error |
| ServiceResource.InterruptIsWrapped | gateway/api/rest-impl/src/main/java/io/apiman/gateway/api/rest/impl/ServiceResourceImpl.java:62-66 | An interrupted wait throws a RuntimeException caused by the InterruptedException |
| ServiceResource.ThrownIsEngineOrWrapped | gateway/api/rest-impl/src/main/java/io/apiman/gateway/api/rest/impl/ServiceResourceImpl.java:62-74 | Whatever escapes is an engine exception or a wrapper; for a signalled call it is the registry's error or wraps it, and for an interrupted wait it wraps the interruption |
| ServiceResource.RetireMatchesPublish | gateway/api/rest-impl/src/main/java/io/apiman/gateway/api/rest/impl/ServiceResourceImpl.java:89-110 | retire maps the registry's result exactly as publish does, for the service it builds |

## Left out

- Threads, the `ScheduledExecutorService`, wall-clock time and `future.get` timeouts are modelled as due times against a deadline. A probe takes effect at the moment it is due, so it counts when it is due before the deadline even if its answer would arrive after it. With `PollerConfig(0, 5, 3)` and a first probe that is healthy but answers after 4 seconds, the code times out and the model returns normally. Probes that overlap or run longer than their period are not modelled either.
- An interrupt of the thread waiting in `blockUntilReady` is not modelled as an input. `EsPoller.Conclude` handles an interrupted wait as the code does, but `EsPoller.BlockUntilReady` assumes the wait is never interrupted.
- `scheduleAtFixedRate` with a non-positive period throws `IllegalArgumentException`. The model reports this as `InvalidPeriod` and does not model the exception type.
- Logging in every component is left out.
- The Elasticsearch health request, `RestHighLevelClient` construction, the credentials provider, connect and socket timeouts, and `initializeIndices` are foreign calls. Index initialisation is recorded as a flag; its own failures are not modelled.
- `GenericOptionsParser` and `ApimanEsClientOptionsParser` are not part of this model. Their parsed values are inputs, so malformed booleans and numbers are not modelled.
- EsClientFactory.ClientKeyInjective: only covers host names without a colon. IPv6 literal hosts are outside that statement.
- EsClientFactory.CharMatchesIgnoreCase: covers only what matches a lower-case ASCII letter: the letter, its upper case, and the four non-ASCII characters whose Java case mapping reaches one (U+0131 and U+0130 for i, U+017F for s, U+212A for k). Matching against other targets is not modelled.
- The `synchronized (clients)` block and other concurrency are not modelled. Each call is atomic in the model.
- Every throwable is treated as an `Exception`, so each `catch (Exception e)` catches it. A `java.lang.Error` thrown by the cache or the handler, which would escape those blocks, is not modelled.
- JNDI lookup, Infinispan's `Cache` and its lifespan-based eviction are not modelled. The lifespan is stored with the entry, but entries never expire in the model.
- `getCache()` memoises the resolved cache. The model does not keep that state: a `LookupFails` fault stands for a call made while the cache is not yet resolved.
- Java `null` for names, namespaces or values is not modelled. Values are generic, and null appears only as the absent previous value (`None`).
- `IPolicyContext` extends `ITransportSecurityStatus`, which is not part of this model. Only the interface contract is modelled; no implementation of it is.
- `PolicyContext.GetConnectorInterceptor` has no separate contract. Its behaviour is stated through `PolicyContext.OnlyFirstRegistrationSucceeds`.
- `WarEngineConfig` reads its `Configuration` from a composite of system properties and a properties file. The model takes the merged result as a flat map of strings. Two things `Configuration.getString` does are therefore not modelled: it interpolates `${...}` references, and for a list-valued (comma-separated) property it returns only the first element.
- Class loading is modelled as the sets of class names each loader finds. `ClassNotFoundException` from both loaders becomes `FailedToLoadClass`.
- The five plain getters of `WarEngineConfig` (`getRegistryClass` and the other role getters with their `get...Config`) are modelled by `RoleKey`, `LoadConfigClass` and `RoleConfig` for each `Role`. They have no separate member.
- `ServiceResourceImpl.getServiceEndpoint` is a plain delegation to the platform and is not modelled.
- The latch wait in `ServiceResourceImpl` is modelled as a `Completion` rather than a blocking thread.
- The `HashSet` error holder is modelled as a sequence. The handler is called at most once before the wait returns, so the holder has at most one element, and "the first element" is what the iterator returns.
- The `Service` bean has more fields than organization, service id, version, endpoint and endpoint type. `Service.java` is not part of this model.

## Findings

| source | as written | input that shows it | evidently intended | confidence | as-written member | corrected member |
|---|---|---|---|---|---|---|
| gateway/engine/ispn/src/main/java/io/apiman/gateway/engine/ispn/InfinispanDataStoreComponent.java:88-89 | `getCache().containsKey(qname)` runs before the `try`. A JNDI `NamingException`, wrapped in a `RuntimeException`, is therefore thrown to the caller, and the result handler is never called. | The first `getProperty` call while the cache container is not bound in JNDI. | As in `setProperty` and `clearProperty`, every store failure is delivered to the handler as an error result and never thrown, so the handler always runs. | medium, not executed | DataStore.GetPropertyAsWritten (shown by DataStore.GetPropertyLookupFailureEscapes) | DataStore.GetProperty |
| common/es/src/main/java/io/apiman/common/es/util/EsConnectionPoller.java:87-91 | The `TimeoutException` branch logs and throws `FailedPollingException` without cancelling `future` or shutting down the scheduler. | Every probe before the deadline is an I/O error. `blockUntilReady` throws, but the task stays scheduled and keeps probing every period. The client factory has not cached that client. | A timed-out wait stops polling, as the success path does with `cancelQuietly`. | low, not executed | EsPoller.PollerAfterAsWritten (shown by EsPoller.TimedOutPollerKeepsProbing) | EsPoller.PollerAfter (with EsPoller.NoProbeAfterWait; EsPoller.RunScheduler leaves this state) |

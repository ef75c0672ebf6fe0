# dubbo-go: state and key algebra, verified

A Dafny model of the parts of dubbo-go that keep state over long runs, and of the keys and merges they
rest on. Stateful Go objects are classes whose methods are proved against specification functions;
the laws are lemmas about those functions, most of them over every run, every history or every
interleaving. Iterating over a Go map is picking its entries in any order. Dials, remote operations,
clocks, checksums and case folding are parameters.

| files | what they model |
|---|---|
| `Urls`, `UrlObjects` | URL parameters, the invoker cache key, `MergeURL`, `Clone`, `IsEquals` |
| `Overrides` | override configurators and lists of them |
| `Events`, `DirectorySpec`, `DirectoryLaws`, `DirectoryRuns`, `DirectoryContents`, `Publishing`, `Directory` | the consumer's registry directory: events, snapshots, invoker lifetimes, grouping |
| `Exchange` | request ids and the table of pending responses |
| `Clients` | exchange clients shared per address and counted by invokers |
| `Limiter` | the execute limiter under every interleaving of its callers |
| `FilterChain` | the chain of filters around an invoker |
| `RpcStatus`, `Statistics` | call statistics, sequential and interleaved, and the active filter |
| `ServiceMap` | the two indexes of provider services |
| `BaseRegistry` | the local map of registered URLs beside the remote registry |
| `Keys`, `ZkConfig` | service keys and their splitter; configuration keys, ZooKeeper paths and listeners |
| `Metadata` | the revision of an application's services |
| `JsonRpc` | acceptance of JSON-RPC requests, with the shared `null` message |
| `Strings`, `MachineInts`, `Wrappers` | helpers |

Several laws turn out to need a condition. It is then part of the statement, with a family of inputs
outside it, and exact where the list says so:

- While no rule names the interface, Del after Add leaves a stale invoker exactly when the provider URL takes
  its interface, group or version from the reference, for parts without an ampersand
  (`DirectoryLaws.DelUndoesAdd`).
- The cached keys are at every moment those of the providers present, exactly if every rule or router event
  finds the provider that came last still present (`DirectoryRuns.RulesMayCacheTheDeleted`).
- A cached invoker has the URL of the last event that cached its key (`DirectoryContents.CachedUrlsAreTheLatest`). A
  snapshot does not count for a key that was cached before it: it keeps that invoker, even if the listed URL differs.
- A list of override rules is idempotent if no rule tests with `~` what it or a later rule sets
  (`Overrides.RuleListIsIdempotent`). For lists in which at most one rule tests what the list sets the guard
  is exact, whatever the rules' addresses and whatever the URL (`Overrides.OneWaitingRule`).
- UnRegister withdraws the node of the URL it is given. Consumer nodes leave out the port, so two
  registered consumer URLs can share one; the condition is exact (`BaseRegistry.UnregisterKeepsOthersPublished`,
  `BaseRegistry.WithdrawnWhileRegistered`). Two URLs of one key and different nodes leave an orphan
  (`BaseRegistry.OrphanAfterUnregister`).
- Sharing a client keeps the count of its users exactly while the 32-bit count has room (`Clients.ReferKeepsInv`).
- A maximum of the statistics is at every moment the largest time stored so far exactly if no shorter call
  passes its test before, and stores after, the store of a longer one (`RpcStatus.LargestAtEveryMoment`).
- A rule read without a group is announced under another key (`ZkConfig.RuleIsAnnouncedUnderAnotherKey`).
- A JSON-RPC request object that is read into twice writes to the `null` message all requests share. Which
  bodies are then accepted, and what becomes of that message, is exact (`JsonRpc.ServerRequest.UnmarshalJSON`,
  `JsonRpc.ReadTwice`); the server never does that (`JsonRpc.Serve`).
- UnRegister under another interface leaves indexes that no set of registrations explains
  (`ServiceMap.WrongInterfaceBreaksIndexes`).

## Model

| member | source | states |
|---|---|---|
| `Urls.CacheKeyDecidesParts` | common/url.go:366-373 | for URLs with the same base whose parts have no ampersand, cache keys are equal exactly when interface, group and version are |
| `Urls.CacheKeysAreEqual` | common/url.go:366-373 | where no part has an ampersand and no address field the separator that follows it, cache keys are equal exactly if protocol, username, password, ip, port, service, group, version and the timestamp of the URL as first read are |
| `Urls.KeysAreEqual` | common/url.go:359-363 | the same for the registry key, which has no timestamp |
| `Urls.ServiceIs` | common/url.go:430-442 | the service is the interface parameter, else the path without its leading slash, else the interface of the sub-URL |
| `Urls.MergeReads` | common/url.go:689-721 | every parameter of a merged URL reads as the order-free rule says: timestamp rule first, then a non-empty reference value for the preferred keys, then the service's, then the reference's |
| `Urls.MergeAgain` | common/url.go:689-721 | a second merge with the same reference changes no reading except remote.timestamp, whose new value is given |
| `Urls.MethodLevelLoadbalanceIsIgnored` | common/url.go:821-834 | at method level only the timeout of the reference wins, because the closures share one loop variable |
| `UrlObjects.URL.SetParam` | common/url.go:465-472 | replaces one parameter's values and nothing else |
| `UrlObjects.URL.SetParams` | common/url.go:632-636 | every listed key takes its first new value, in any order of the map |
| `UrlObjects.URL.Clone` | common/url.go:724-737 | a fresh URL with the same base and each parameter's first value |
| `UrlObjects.URL.CloneExceptParams` | common/url.go:739-753 | the same without the excluded keys |
| `UrlObjects.MergeURL` | common/url.go:689-721 | the loops compute the merge function whatever the map order, and leave both arguments alone |
| `UrlObjects.MergeNormalParam` | common/url.go:821-834 | non-empty reference values win for the listed keys; all closures capture the last key |
| `UrlObjects.MergeMethodParams` | common/url.go:713-717 | running all closures prefers exactly the reference's method timeouts |
| `UrlObjects.IsEquals` | common/url.go:791-819 | equal exactly if ip and port are and every name that is not excluded shows the same in both URLs |
| `UrlObjects.BuildMap` | common/url.go:639-676 | the loop over the parameters in any order and the fields after it build the map |
| `UrlObjects.ToMapShows` | common/url.go:639-676 | the map holds under every name what the URL shows there: a non-empty protocol, user, password or path, host and port of a non-empty location, else the first value of the parameter |
| `UrlObjects.SameUrlsShowTheSame` | common/url.go:791-819 | two URLs are the same exactly if they have one ip and port and show the same under every name |
| `UrlObjects.SameUrlsAgreeInParameters` | common/url.go:639-645 | the same URLs agree in the presence and first value of every parameter that no field hides |
| `Overrides.OverrideConfigurator.Configure` | config_center/configurator/override.go:51-72 | both rule forms change the URL exactly as the matching predicate, spelled out by RuleAppliesExactly, and the rule's payload say |
| `Overrides.OverrideConfigurator.ConfigureIfMatchInternal` | config_center/configurator/override.go:74-106 | the payload is set if side, application and every `~` condition hold, in any map order, else nothing changes |
| `Overrides.OverrideConfigurator.ConfigureIfMatch` | config_center/configurator/override.go:109-116 | acts only for the URL's host or any host |
| `Overrides.OverrideConfigurator.ConfigureDeprecated` | config_center/configurator/override.go:118-135 | which host a rule without configVersion is compared with |
| `Overrides.RuleAppliesExactly` | config_center/configurator/override.go:51-135 | when a rule applies, over the fields of rule and URL, one clause each for a rule with configVersion on a consumer, on a provider and on neither, and for one without on a rule with a port, on a consumer and otherwise |
| `Overrides.SettingsBecomeReadable` | config_center/configurator/override.go:74-106 | a rule that applies makes each of its settings, but for the conditions, readable on the URL; everything else reads as before |
| `Overrides.DoOverrideUrl` | registry/directory/directory.go:453-457 | the loop applies the rules in turn |
| `Overrides.ConfigureIsIdempotent` | config_center/configurator/override.go:51-135 | one rule applied twice equals once, for every rule and URL, `~` conditions included |
| `Overrides.RulesKeepAddressAndConditions` | config_center/configurator/override.go:74-106 | no list of rules changes the base or a condition key of the target |
| `Overrides.MatchesAreStable` | config_center/configurator/override.go:51-135 | in an undisturbed list earlier rules do not change whether a later one applies |
| `Overrides.LastMatchingRuleWins` | registry/directory/directory.go:453-457 | in an undisturbed list each parameter ends with the value of the last rule that applies to the URL and carries it, else its own |
| `Overrides.RuleListIsIdempotent` | registry/directory/directory.go:453-457 | a list in which no rule tests what it or a later rule sets, applied twice, equals once; earlier rules may set what later ones test |
| `Overrides.SecondPass` | registry/directory/directory.go:453-457 | at every turn of the second pass a parameter set again reads as in the first pass and any other as after all of it |
| `Overrides.OneWaitingRule` | registry/directory/directory.go:453-457 | for every URL and every list in which at most one rule, with any `~` conditions, tests what the list sets: twice equals once exactly if that rule applies in both passes or neither, or lapses without showing an earlier setting, or applies late and sets nothing new |
| `Overrides.RulesWithoutTildeAreUndisturbed` | config_center/configurator/override.go:74-106 | lists without `~` keys are undisturbed |
| `Overrides.UndisturbedTestsComeLast` | config_center/configurator/override.go:74-106 | undisturbed lists meet the condition for idempotence |
| `Overrides.WaitingListNeedsTwoPasses` | config_center/configurator/override.go:74-106 | a family of lists of override rules in which a rule waits for a later one: on any URL, with or without a side, that lacks both settings the second pass differs from the first |
| `Events.KeyIsCached` | registry/event.go:71-81 | once filled, an event's key stays the same whatever URL the event is updated to |
| `Events.ServiceEvent.Update` | registry/event.go:59-62 | replaces the URL and marks the event, keeps the cached key |
| `Events.ServiceEvent.Key` | registry/event.go:71-81 | answers the cached key or fills it from the current URL |
| `DirectorySpec.CacheOneKeepsInv` | registry/directory/directory.go:361-388 | keeping, failing, storing and displacing keep every referred invoker in exactly one place |
| `DirectoryContents.AddReplacesTheChanged` | registry/directory/directory.go:361-388 | an Add or Update that brings a URL refers nothing exactly if the same URL is cached under its key; otherwise, if Refer succeeds, the new invoker takes the key and the displaced one is destroyed, else the old one stays |
| `DirectoryContents.NothingBrought` | registry/directory/directory.go:336-359 | one that brings none leaves cache and invokers alone |
| `DirectoryContents.WhatAnEventBrings` | registry/directory/directory.go:268-359 | a provider of an accepted protocol brings itself, merged and overridden; a rule brings the last provider again with the rule applied after the older configurators, a router brings it unchanged; else nothing |
| `DirectoryContents.DirectoryUrlReads` | registry/directory/directory.go:336-337 | an Add or Update turns the rules, its own among them, on the directory's URL |
| `DirectoryContents.TwoAddressesAreBothCached` | registry/directory/directory.go:361-388 | Adds of two providers that differ in ip or port, with Refers successful, leave both cached, whatever the rules |
| `DirectoryContents.CacheOneFulfils` | registry/directory/directory.go:361-388 | caching one URL makes the last URL for the key the cached one unless it differs and cannot be referred |
| `DirectoryContents.SnapshotFulfils` | registry/directory/directory.go:144-207 | so does a snapshot, in its order, for the keys it adds; it keeps the listed ones and drops the others |
| `DirectoryContents.CachedUrlsAreTheLatest` | registry/directory/directory.go:125-207 | after every run, whichever Refers succeed, each cached invoker has the URL of the last event that cached its key |
| `DirectoryContents.CachedSettingsAreTheLatest` | registry/directory/directory.go:125-207 | from the start on, in ip, port and everything the URL shows |
| `DirectorySpec.NotifyKeepsInv` | registry/directory/directory.go:125-140 | so does a single event |
| `DirectorySpec.SnapshotKeepsInv` | registry/directory/directory.go:144-207 | so does a full snapshot |
| `DirectorySpec.RunKeepsInv` | registry/directory/directory.go:125-207 | so does every run of events, snapshots, rule changes and pending destroys |
| `DirectorySpec.NoLeakNoDeadInvoker` | registry/directory/directory.go:125-207 | after every run the invokers referred and not destroyed or scheduled are exactly the cached ones, one per key |
| `DirectoryLaws.SnapshotMakesCacheAgree` | registry/directory/directory.go:144-207 | after a snapshot only listed keys are cached, listed ones keep their invoker, and with all Refers successful exactly the listed keys are cached |
| `DirectoryLaws.RepeatedSnapshotIsSilent` | registry/directory/directory.go:144-229 | repeating the snapshot, with new or the same event objects, refers and destroys nothing |
| `DirectoryLaws.ResolvedKeyParts` | registry/directory/directory.go:336-359 | what merging and overriding leave of base, group, version and interface |
| `DirectoryLaws.CacheKeySurvives` | common/url.go:366-373 | the cache key survives merging and overriding if, and without ampersands only if, the provider brings its own key parts |
| `DirectoryLaws.ResolvedReads` | registry/directory/directory.go:429-433 | in undisturbed rules each setting of a provider reads as the last rule that applies and carries it says, one for the reference before one for the consumer before a configurator, else as merged with the reference |
| `DirectoryLaws.RulesRead` | registry/directory/directory.go:429-433 | the same for any URL the rules are turned on |
| `DirectoryLaws.DelUndoesAdd` | registry/directory/directory.go:241-261 | Del after Add removes what Add cached under that same condition, and otherwise leaves its invoker cached |
| `DirectoryRuns.CachedKeysAreTheAnnounced` | registry/directory/directory.go:125-207 | after every run of events and snapshots of providers with their own key, of rule and router events and of rule changes, with all Refers successful, the cached keys are exactly the announced ones: added or listed and not deleted since, where a rule or router event announces the provider that came last again |
| `DirectoryRuns.RulesMayCacheTheDeleted` | registry/directory/directory.go:336-359 | at every moment of such a run the cached keys are those of the providers present, exactly if at every rule or router event the provider that came last is still present |
| `DirectoryRuns.DeletedProviderIsCachedAgain` | registry/directory/directory.go:336-345 | a provider added and deleted is cached again by any rule that comes after |
| `Publishing.CollectInvokers` | registry/directory/directory.go:288-291 | collects each cached invoker once, in any order |
| `Publishing.GroupInvokers` | registry/directory/directory.go:293-297 | sorts the invokers by group without losing or repeating any |
| `Publishing.ToGroupInvokers` | registry/directory/directory.go:281-318 | each cached invoker is in exactly one entry of one group: with one group every entry is an invoker itself, with several and routers every entry is a cluster and there is one per group, with several and no routers the list is empty |
| `Publishing.PublishedIsHeld` | registry/directory/directory.go:281-318 | nothing is published that is not cached |
| `Publishing.PublishedNeverDestroyed` | registry/directory/directory.go:135-139 | in a safe log at no moment does the published list hold a destroyed invoker |
| `Directory.RegistryDirectory.constructor` | registry/directory/directory.go:73-98 | a new directory is empty and valid |
| `Directory.RegistryDirectory.PublishedIsAlive` | registry/directory/directory.go:232-238 | in every valid state no published invoker is destroyed or scheduled to be |
| `Directory.RegistryDirectory.OverrideUrl` | registry/directory/directory.go:429-433 | the three rule lists in turn |
| `Directory.RegistryDirectory.DoCacheInvoker` | registry/directory/directory.go:361-388 | nothing is referred exactly if an invoker under the key has an equal URL; otherwise a successful Refer takes the key and the displaced invoker is returned, and a failed one changes nothing |
| `Directory.RegistryDirectory.UncacheInvokerWithKey` | registry/directory/directory.go:325-333 | takes out exactly that key |
| `Directory.RegistryDirectory.ConvertUrl` | registry/directory/directory.go:268-279 | override events add a rule and yield no URL, router events yield none |
| `Directory.RegistryDirectory.CacheInvokerFor` | registry/directory/directory.go:336-359 | an override event re-caches the last provider URL; a foreign protocol is skipped |
| `Directory.RegistryDirectory.CacheInvokerByEvent` | registry/directory/directory.go:241-261 | the dispatch on the event's action |
| `Directory.RegistryDirectory.SetNewInvokers` | registry/directory/directory.go:232-238 | publishes a grouping of the cache and keeps the log of publications and destroys safe |
| `Directory.RegistryDirectory.DestroyOne` | registry/directory/directory.go:136-138 | destroying an invoker that is not cached keeps the log safe |
| `Directory.RegistryDirectory.RefreshInvokers` | registry/directory/directory.go:125-140 | one event, or none, does what the specification step does and keeps validity; the log shows the publication first and the destroy after it |
| `Directory.RegistryDirectory.Process` | registry/directory/directory.go:476-480 | a rule change publishes again and keeps validity |
| `Directory.RegistryDirectory.DestroyGoroutine` | registry/directory/directory.go:203-206 | a pending destroy may happen at any later time |
| `Directory.RegistryDirectory.PrepareEvent` | registry/directory/directory.go:154-163 | panics exactly for anything but a provider update, else merges, overrides and marks the event |
| `Directory.RegistryDirectory.PrepareEvents` | registry/directory/directory.go:153-164 | panics exactly if some event is unacceptable at one of its turns, else has merged every event object as often as it is listed |
| `Directory.RegistryDirectory.InvokerCacheKey` | registry/directory/directory.go:220-229 | an updated event answers its own key, any other is merged with the reference first |
| `Directory.RegistryDirectory.EventMatched` | registry/directory/directory.go:210-217 | true exactly if some event has the key |
| `Directory.RegistryDirectory.PruneCache` | registry/directory/directory.go:172-180 | drops exactly the unlisted keys and returns their invokers |
| `Directory.RegistryDirectory.EventsToAdd` | registry/directory/directory.go:182-187 | the events whose key is not cached, in order |
| `Directory.RegistryDirectory.AddInvokers` | registry/directory/directory.go:189-200 | adds them in order and collects what they displace |
| `Directory.RegistryDirectory.ReplaceCache` | registry/directory/directory.go:167-207 | with prepared events the cache, the list and the scheduled destroys are those of the specification step, the list published first |
| `Directory.RegistryDirectory.RefreshAllInvokers` | registry/directory/directory.go:144-207 | a snapshot, also with an event object listed twice, does what the specification step does and publishes before any destroy, or panics exactly for unacceptable events and leaves cache and list alone |
| `Exchange.IdsAreEvenAndWrap` | remoting/exchange.go:48-52 | ids are even, and positive exactly where the 64-bit count says |
| `Exchange.IdsRepeatAfterTwo63` | remoting/exchange.go:48-52 | two ids are equal exactly if the request numbers differ by a multiple of 2^63 |
| `Exchange.RunKeepsInv` | remoting/exchange.go:100-115 | every run keeps the table, the ids and the log of completions in agreement |
| `Exchange.EveryRequestCompletesAtMostOnce` | remoting/exchange.go:100-115 | after every run a two-way id is pending or completed, never both, completed at most once and by its own response; no other id is either |
| `Exchange.IdsAreFresh` | remoting/exchange.go:48-52 | in runs of fewer than 2^62 requests all ids are positive, even and different |
| `Exchange.StrayResponsesAreIgnored` | remoting/exchange.go:171-185 | a response changes nothing exactly if its id is not two-way or already completed |
| `Exchange.PendingResponse.Complete` | remoting/exchange.go:100-115 | stores the response and either closes the channel or runs the callback once |
| `Exchange.ExchangeTable.SequenceID` | remoting/exchange.go:48-52 | adds two in 64 bits |
| `Exchange.ExchangeTable.IssueRequest` | remoting/exchange_client.go:111-184 | a new id, and for two-way requests its own entry, with a callback exactly if one was given; other entries stay |
| `Exchange.ExchangeTable.HandleResponse` | remoting/exchange.go:100-115 | completes exactly the entry of its id, and no entry is completed twice |
| `Clients.ReferKeepsInv` | protocol/dubbo/dubbo_protocol.go:90-100 | Refer keeps counts, address map and closings in agreement exactly if the shared client's 32-bit count has room |
| `Clients.ReferMakes` | protocol/dubbo/dubbo_protocol.go:176-225 | an invoker is made exactly if the address is known or a dial succeeds, live and on the client of its address; a new connection is made only for an unknown address; a failure changes nothing |
| `Clients.FullClientWraps` | remoting/exchange_client.go:96-98 | sharing a full client takes its count to zero while 2^32 invokers use it |
| `Clients.DestroyKeepsInv` | protocol/dubbo/dubbo_invoker.go:195-208 | so does Destroy, also when repeated |
| `Clients.SharedClientsAreCounted` | protocol/dubbo/dubbo_protocol.go:176-225 | after every run, of any length, in which no Refer fills a client, its active number is the number of its undestroyed invokers, it is in the map exactly while that is positive, and it is closed exactly once at zero |
| `Clients.LiveInvokersShareOpenClients` | protocol/dubbo/dubbo_invoker.go:195-208 | no live invoker holds a closed client, and live invokers of one address share one |
| `Clients.DubboProtocol.NewExchangeClient` | remoting/exchange_client.go:63-93 | a client counted once, initialised unless that is put off, or none if the dial and its retry fail |
| `Clients.DubboProtocol.GetExchangeClient` | protocol/dubbo/dubbo_protocol.go:176-225 | shares a known client or dials with one retry |
| `Clients.DubboProtocol.ReferTo` | protocol/dubbo/dubbo_protocol.go:90-100 | does what the specification step does, and stays valid exactly if there was room |
| `Clients.DubboProtocol.DestroyInvoker` | protocol/dubbo/dubbo_invoker.go:195-208 | does what the specification step does, closing at zero |
| `Limiter.RunKeepsInv` | filter/execlmt/filter.go:79-131 | in every interleaving a caller's number is at least its place among the active callers |
| `Limiter.LimitHolds` | filter/execlmt/filter.go:79-131 | callers running under limits of at most L never exceed L, whatever limits others carry; the counter is the number of active callers |
| `Limiter.RejectedMeansCrowded` | filter/execlmt/filter.go:104-116 | a caller is rejected exactly if as many callers as its limit were active at its increment |
| `Limiter.RejectedWhileNobodyRuns` | filter/execlmt/filter.go:104-116 | rejected callers count too, so a caller can be rejected while nobody runs |
| `Limiter.ExecuteState.IncreaseCount` | filter/execlmt/filter.go:125-127 | returns the count its own increment made |
| `Limiter.ExecuteState.Admit` | filter/execlmt/filter.go:108-118 | admits exactly if that count is within the caller's limit |
| `Limiter.ExecuteState.DecreaseCount` | filter/execlmt/filter.go:129-131 | gives the ticket back |
| `FilterChain.BuildInvokerChain` | protocol/protocolwrapper/protocol_filter_wrapper.go:74-89 | the backward loop builds the chain with the leftmost filter outermost, or panics exactly for an unknown name |
| `Strings.SplitIs` | protocol/protocolwrapper/protocol_filter_wrapper.go:79-79 | a split gives the only parts without the separator that joined by it make the text |
| `Strings.TrimSpaceIs` | protocol/protocolwrapper/protocol_filter_wrapper.go:84-84 | trimming takes away white space on both sides and all of it |
| `FilterChain.CallRunsLikeAnOnion` | protocol/protocolwrapper/protocol_filter_wrapper.go:118-121 | filters are entered left to right up to the first that answers, the base invoker is called once if none does, and exactly the entered filters respond in reverse order |
| `FilterChain.EveryEntryIsAnswered` | protocol/protocolwrapper/protocol_filter_wrapper.go:118-121 | in every execution, however often filters call on and however differently those calls go, each filter responds exactly as often as it is entered |
| `FilterChain.InvokeIsACall` | protocol/protocolwrapper/protocol_filter_wrapper.go:118-121 | what Invoke does on a built chain is such an execution |
| `RpcStatus.CountersAreSums` | protocol/rpc_status.go:152-178 | after every history each counter is the sum of what its events are worth, in its 32 or 64 bits |
| `RpcStatus.SuccessiveFailuresTrail` | protocol/rpc_status.go:156-178 | the successive failure count is the number of failures since the last success |
| `RpcStatus.LastFailureIsKept` | protocol/rpc_status.go:156-178 | the last failure time is when the last failed call ended, and 0 before any |
| `RpcStatus.MaximaAreLargest` | protocol/rpc_status.go:156-178 | each maximum is the largest time of its kind, at least 0 |
| `RpcStatus.TableIsFold` | protocol/rpc_status.go:113-149 | a status exists exactly if some call concerns it, and is the fold of exactly those calls |
| `RpcStatus.UrlAggregatesMethods` | protocol/rpc_status.go:140-149 | after every history a URL's counters are the sums of its methods' stored counters, in their width |
| `RpcStatus.UrlMaximaAreOfMethods` | protocol/rpc_status.go:140-149 | and its maxima the largest of its methods' maxima |
| `RpcStatus.EveryInterleavingCounts` | protocol/rpc_status.go:152-178 | however the atomic additions of concurrent calls interleave, the counters end as if the calls came one after the other |
| `RpcStatus.MaximumIsSomeTime` | protocol/rpc_status.go:161-163 | with testing and storing apart, in every interleaving the maximum is 0 or some call's time |
| `RpcStatus.MaximumCanBeLost` | protocol/rpc_status.go:161-163 | but a longer call can be overwritten by an overlapping shorter one |
| `RpcStatus.LargestAtEveryMoment` | protocol/rpc_status.go:161-163 | in every interleaving the maximum is at every moment at least every time stored so far, exactly if no shorter call passes its test before and stores after the store of a longer one |
| `RpcStatus.MaximumIsLargest` | protocol/rpc_status.go:161-163 | then it also never falls |
| `RpcStatus.InvertedPairLoses` | protocol/rpc_status.go:161-163 | if the only two stores are so inverted, the longer time is lost |
| `RpcStatus.TwoStoresExactly` | protocol/rpc_status.go:161-163 | with two stores both times are bounded by the maximum exactly if they are not inverted |
| `Statistics.RPCStatus.BeginCount0` | protocol/rpc_status.go:152-154 | one more active call, nothing else |
| `Statistics.RPCStatus.EndCount0` | protocol/rpc_status.go:156-178 | all ten fields after an ended call |
| `Statistics.Tables.GetStatus` | protocol/rpc_status.go:113-137 | finds the status or stores a new zero one, never sharing it with another key |
| `Statistics.Tables.BeginCount` | protocol/rpc_status.go:140-143 | both statuses of the call change, no other does |
| `Statistics.Tables.EndCount` | protocol/rpc_status.go:146-149 | the same for an ended call |
| `Statistics.ActiveReturns` | filter/active/filter.go:48-66 | every execution of a call moves the active count by the responses whose start time does not parse, so back to its prior value if all do |
| `ServiceMap.RegisterDescribes` | common/rpc_service.go:218-263 | Register keeps both indexes describing the same registrations, the new one last |
| `ServiceMap.FailedRegisterChangesNothing` | common/rpc_service.go:218-263 | a failed Register, a duplicate in particular, changes no lookup and no list |
| `ServiceMap.UnregisterDescribes` | common/rpc_service.go:266-320 | UnRegister that names the interface removes that one registration from both indexes and keeps the order of the rest |
| `ServiceMap.WrongInterfaceBreaksIndexes` | common/rpc_service.go:266-320 | with another interface no set of registrations explains both indexes afterwards |
| `ServiceMap.RunDescribes` | common/rpc_service.go:189-320 | every run that names the right interfaces keeps both indexes describing the same registrations |
| `ServiceMap.IndexesAgree` | common/rpc_service.go:189-320 | from the empty map, after every such run both indexes describe the registrations made and not taken back, in order |
| `ServiceMap.ServiceTable.RegisterService` | common/rpc_service.go:218-263 | succeeds exactly for an exported, named receiver with methods and a free key, and does what the specification step does |
| `ServiceMap.ServiceTable.UnRegisterService` | common/rpc_service.go:266-320 | succeeds exactly if protocol, key and interface are known, and does what the specification step does |
| `ServiceMap.LastIndexOf` | common/rpc_service.go:294-298 | the last position of the service, or -1 |
| `ServiceMap.AllBut` | common/rpc_service.go:307-312 | the list without that position, in order |
| `BaseRegistry.RegisterKeepsBoth` | registry/base_registry.go:134-168 | Register keeps every local URL published and adds no orphan; a failed one changes nothing |
| `BaseRegistry.NodeSays` | registry/base_registry.go:249-390 | directory, service, protocol, host, path and every parameter of the node of a provider and of a consumer; a provider leaves out names whose first value is empty |
| `BaseRegistry.MethodsReadBack` | registry/base_registry.go:328-330 | the method names can be read back from the list that is written if none has a comma |
| `BaseRegistry.UnregisterKeepsOthersPublished` | registry/base_registry.go:171-205 | after a successful UnRegister all remaining URLs are published exactly if none of them has the withdrawn node |
| `BaseRegistry.UnregisterLeavesNoOrphan` | registry/base_registry.go:171-205 | no orphan remains exactly if the URL given publishes the node of the URL registered under its key, or another registered URL has that node |
| `BaseRegistry.ReplayPublishes` | registry/base_registry.go:221-230 | a replay succeeds exactly if each registration does, and then every URL is present; it withdraws nothing and adds no other node |
| `BaseRegistry.RestartPublishes` | registry/base_registry.go:213-237 | a successful replay in any order publishes all services, whatever the remote still held |
| `BaseRegistry.RunKeepsAllPublished` | registry/base_registry.go:134-237 | where nodes tell keys apart, after every run, lost sessions and replays included, every local URL is present remotely unless a lost session still waits for a successful replay |
| `BaseRegistry.RunLeavesNoOrphans` | registry/base_registry.go:134-237 | where one key publishes one node, after every such run nothing is present remotely but nodes of registered URLs |
| `BaseRegistry.OrphanAfterUnregister` | registry/base_registry.go:171-205 | for any two publishable URLs of one key and different nodes, a run that leaves nothing registered and one node |
| `BaseRegistry.WithdrawnWhileRegistered` | registry/base_registry.go:171-205 | for any two publishable URLs of different keys and one node, a run that leaves one registered and nothing published |
| `BaseRegistry.ConsumersOnTwoPortsShareANode` | registry/base_registry.go:357-390 | consumer URLs that differ in the port are such URLs |
| `BaseRegistry.Registry.DoRegister` | registry/base_registry.go:249-296 | publishes exactly the URL's node, exactly if the remote operations succeed and the role is the consumer's, or the provider's with path and methods |
| `BaseRegistry.Registry.RegisterUrl` | registry/base_registry.go:134-168 | address fields given by the environment replace those of the URL, nothing else changes in it; then the specification step |
| `BaseRegistry.Registry.UnRegisterUrl` | registry/base_registry.go:171-205 | the specification step, which succeeds exactly for a registered key and a publishable URL when the remote operation does; a failure puts the entry back |
| `BaseRegistry.Registry.CopyServices` | registry/base_registry.go:214-218 | copies every service once, in any order |
| `BaseRegistry.Registry.RestartCallBack` | registry/base_registry.go:213-237 | registers the copies in turn up to the first failure, which the flag reports |
| `Keys.GetServiceString` | config_center/parser/configuration_parser.go:204-225 | the parameter text names exactly the parts the splitter finds |
| `Keys.SplitUndoesServiceKey` | common/url.go:381-399 | splitting a service key returns interface, group and version (0.0.0 as none) exactly for the splittable triples |
| `Keys.ServiceKeyIsInjective` | common/url.go:381-399 | on those the key is injective up to that normal form |
| `Keys.ServiceKeysCollide` | common/url.go:381-399 | a slash in the interface makes two services share a key |
| `ZkConfig.PathLeadsBack` | config_center/zookeeper/listener.go:84-95 | for a group without slashes the path of a key leads back to the key exactly if the key has no slash and is a rule's and the group has no dot |
| `ZkConfig.PathIs` | config_center/zookeeper/impl.go:240-252 | a configuration lies under its namespace, `config`, its group or `dubbo`, and its key |
| `ZkConfig.ReadsWhatIsPublished` | config_center/zookeeper/impl.go:102-122 | with a group GetProperties reads the path that is published to |
| `ZkConfig.RuleIsAnnouncedUnderAnotherKey` | config_center/zookeeper/impl.go:110-121 | the node read for a rule without a group is announced under the key without its first component |
| `ZkConfig.RuleIsHeardUnderItsKey` | config_center/zookeeper/listener.go:63-95 | a change of a configurators, tag-router or condition-router rule is looked up under the rule's own key |
| `ZkConfig.MeshRuleIsHeardUnderTheApplication` | config_center/zookeeper/listener.go:69-72 | a mesh rule is looked up under the application's name |
| `ZkConfig.ListenersAreTheAdded` | config_center/zookeeper/listener.go:44-60 | after every history a key's listeners are those whose last operation added them |
| `ZkConfig.CacheListener.AddListener` | config_center/zookeeper/listener.go:44-52 | adds to the key's set |
| `ZkConfig.CacheListener.RemoveListener` | config_center/zookeeper/listener.go:55-60 | removes from the key's set, if there is one |
| `ZkConfig.CacheListener.DataChange` | config_center/zookeeper/listener.go:63-82 | empty content tells nobody; otherwise each listener of the looked-up key is told once, in any order, and the answer says whether the key is known |
| `ZkConfig.ChangeReachesExactlyItsListeners` | config_center/zookeeper/listener.go:44-95 | after every history a published change of a rule reaches exactly the listeners registered under its key, each once |
| `Metadata.BagInAnyOrder` | common/metadata_info.go:92-107 | the bag of candidates does not depend on the order of the services |
| `Metadata.SumDoesNotWrap` | common/metadata_info.go:110-114 | for fewer than 2^32 candidates the 64-bit sum does not wrap |
| `Metadata.RevisionsAgree` | common/metadata_info.go:83-116 | two revisions are equal exactly if the sums are, so whenever the candidates are the same |
| `Metadata.OneMoreMethod` | common/metadata_info.go:92-104 | a further method adds the candidate that names it; the first one also takes away the candidate of the service alone |
| `Metadata.OneMoreService` | common/metadata_info.go:92-97 | a further service without methods adds its key |
| `Metadata.RevisionSeesTheMethod` | common/metadata_info.go:83-116 | a service that gains a further method gets another revision exactly if the checksum of that candidate is not zero |
| `Metadata.DecimalReadsBack` | common/metadata_info.go:113-113 | the revision is the sum in decimal digits, without leading zeros |
| `Metadata.MetadataInfo.CollectCandidates` | common/metadata_info.go:90-107 | eight empty strings and every service key or key and method, whatever the order of the map |
| `Metadata.SumChecksums` | common/metadata_info.go:110-114 | the loop gives the total of the bag in 64 bits |
| `Metadata.MetadataInfo.CalAndGetRevision` | common/metadata_info.go:83-116 | a reported revision is kept, no services give "0", else the revision of the bag of candidates is stored, whatever sorting does |
| `Metadata.ServiceInfo.GetMatchKey` | common/metadata_info.go:233-240 | answers the stored match key or makes and stores it |
| `Metadata.MetadataInfo.MarkReported` | common/metadata_info.go:124-126 | from then on a computed revision is kept |
| `Metadata.MetadataInfo.AddService` | common/metadata_info.go:129-134 | stores under the match key, which the service then knows |
| `Metadata.MetadataInfo.RemoveService` | common/metadata_info.go:137-142 | removes what is stored under the match key the service knows |
| `JsonRpc.CountingFindsForeignMembers` | protocol/jsonrpc/json.go:243-245 | the count of members refuses exactly the requests with members other than the four |
| `JsonRpc.DecodeTakesLast` | protocol/jsonrpc/json.go:230-232 | decoding leaves each field with its last member's value and fails exactly for a version or method that is no text |
| `JsonRpc.DecodeDecides` | protocol/jsonrpc/json.go:224-273 | the checks pass exactly the requests of section 4 of the JSON-RPC 2.0 Specification |
| `JsonRpc.ServerRequest.Reset` | protocol/jsonrpc/json.go:212-221 | empties the messages in place, the shared null too if the id points to it |
| `JsonRpc.ServerRequest.DecodeFields` | protocol/jsonrpc/json.go:230-232 | the fields hold what decoding gives; exactly what becomes of the shared null and whether the id still points to it |
| `JsonRpc.ReadMembers` | protocol/jsonrpc/json.go:234-237 | each name's last value, null as nil |
| `JsonRpc.ServerRequest.UnmarshalJSON` | protocol/jsonrpc/json.go:224-273 | accepts exactly the acceptable bodies, a null id only while the shared null reads as an id, and takes over their values; what the shared null reads afterwards, for every body and every earlier id |
| `JsonRpc.Serve` | protocol/jsonrpc/server.go:322-329 | with a new codec per request, over every run exactly the acceptable bodies are accepted |
| `JsonRpc.NullIdsLeaveItEmpty` | protocol/jsonrpc/json.go:218-220 | a body with no id but null, read through an id that points to the shared null, leaves it empty |
| `JsonRpc.ReadTwice` | protocol/jsonrpc/json.go:259-261 | an acceptable body with a null id is accepted; what it leaves of the shared null decides the second reading into the same request and a third into a new one, and with no id but null both are refused |

## Left out

- Network and storage clients, sessions, timeouts and logging: each is an operation that succeeds or fails.
- Byte-level encodings (hessian, JSON and YAML text, net/url escaping, base64): values and datatypes stand for them; a registry node is its fields, not its text.
- Router chains, cluster strategies, load balancers, generic calls, reflection, extension tables and configuration builders.
- Races inside one directory call (Notify does not take the register lock): each call is one step.
- The try-lock protocol inside getExchangeClient: each Refer is one step.
- The separate load and delete inside removePendingResponse: handling a response is one step.
- ServiceEvent.KeyFunc, which nothing in the repository sets.
- Events.ServiceEvent.Key: does not model KeyFunc, for that reason.
- SubURL and the writing of parameters to an invoker's own URL by DubboInvoker.Invoke; the directory's cached URLs are values.
- Destroy, List and IsAvailable of the directory, and the subscription to the registry: they would only add easy members.
- Exchange.EveryRequestCompletesAtMostOnce: for runs of up to 2^63 requests, because ids repeat after that (`Exchange.IdsRepeatAfterTwo63` says exactly when).
- Exchange.IdsAreFresh: for runs of fewer than 2^62 requests, because later ids are negative.
- Clients.SharedClientsAreCounted: for runs in which no Refer makes a client's 2^32nd user, because the active number is a uint32 (`Clients.FullClientWraps` says what happens then).
- Clients.LiveInvokersShareOpenClients: for the same runs.
- Limiter.LimitHolds: does not model 64-bit wrap-around of the counter, which needs 2^63 callers at once; choosing the limit target and parsing the limit are not modelled.
- RpcStatus.LargestAtEveryMoment: the non-atomic maxima are modelled apart from the counters.
- Overrides.RuleListIsIdempotent: the condition is sufficient for all lists and not necessary; `Overrides.OneWaitingRule` is exact where at most one rule tests what the list sets.
- RpcStatus.EveryInterleavingCounts: covers the counters that are only added to; the successive failure count and the last failure time depend on the order of the stores.
- The invoker black list and its refresh, and the graceful shutdown filter.
- BaseRegistry: subscriptions, and registered URL objects that a caller changes afterwards.
- Metadata.MetadataInfo.CalAndGetRevision: sort.Strings is any rearrangement and crc32 any function below 2^32; that the list comes out sorted is not modelled, since the sum does not depend on it.
- JSON-RPC response writing, parameter decoding into Go values, and the client codec.

# BotManager core, modelled and proved

A model in Dafny of the core of BotManager, a C daemon that runs chat bots. The
core is a set of lock-guarded registries and state machines plus several
hand-written codecs. Each lock-protected section of the source is one atomic
step; what lies between two sections is a step of its own, and other threads
may step in between. Where a whole call is one step although the source drops
its lock inside, "Left out" says so.

| part | files | what is proved |
|---|---|---|
| Bot drivers (`core/bot.c`) | `Bot*.dfy` | over every interleaving, a driver handle is destroyed at most once and never under a live delivery; a teardown stops a handle at most once and before it destroys it, and a running driver is never destroyed unstopped; an instance is freed once, unreachable, and never touched again; exactly when an owed teardown is lost and which running deliveries the unload poll misses |
| HTTP requests (`core/curl.c`) | `Curl*.dfy` | linked sub-queues refine sequences; each request is in one place; its callback fires exactly once on the delivering paths and never on the others; a cancel never hits a reused struct; requests start oldest first within a class and by urgency between classes; whom the shutdown drain calls back, in what order and how, and what it leaves while others still submit |
| Plugins (`core/plugin.c`) | `Plugin*.dfy` | dependency resolution is sound and complete with a true cycle verdict; the reload closure is least; exactly when a reload goes through, and that it ends in a dependency order |
| KV store (`core/kv.c`) | `Kv*.dfy` | the text codec round-trips; the hash table does to every key what the cell model says; an untouched row is never changed; exactly which runs lose a value over a reload or a restart, for every row; a set survives a restart; a reset sticks |
| Methods (`core/method.c`) | `Method*.dfy` | references are exactly the registry's plus the handouts, taken by callers, captures or deliveries; freed once, alone; a subscriber is called by every delivery until it unsubscribes; exactly when names stay apart |
| Commands (`core/cmd.c`) | `Cmd*.dfy` | the forest, list and masks stay consistent; exactly when a reclaim takes everything owned; exactly when names stay unambiguous and when a bot reaches two commands by one name |
| Expressions (`core/math_expr.c`) | `Math*.dfy` | exactly which token streams have a value, and that it is the value of the tree they spell, over any number type; exact binomials and factorials |
| JSON strings (`core/json.c`) | `Json*.dfy`, `Utf8.dfy` | unescaping gives any string of RFC 8259 its meaning; escaping gives the shortest such string; escape then unescape is the identity; valid UTF-8 stays valid; output never overtakes input |
| Event streams (`core/sse.c`) | `Sse*.dfy`, `TextLines.dfy` | any chunking gives the frames of the whole stream; exactly which payloads round-trip |
| Control socket (`core/botmanctl.c`) | `Botmanctl.dfy` | any chunking gives the answers of the whole stream |

Classes follow the source where it updates things in place; their methods are
proved against functions, and the guarantees are lemmas about those functions
over whole runs. `dafny verify dfyconfig.toml` checks the project.

Findings, each a lemma with a concrete run or input:

- An owed driver teardown can be lost in three ways: two releases that both
  read two references (`BotWitnesses.OverlappingReleasesStrandTeardown`), a
  detach between the two sections of the only release
  (`BotWitnesses.DetachInsideReleaseStrands`), and a second detach that parks
  its teardown over the first
  (`BotWitnesses.SecondDetachOverwritesTeardown`). That these are all is
  `BotTeardown.TeardownLostIff`.
- The in-flight poll misses a teardown that a release has claimed
  (`BotWitnesses.PollMissesClaimedTeardown`) and deliveries inside a destroyed
  bot (`BotWitnesses.PollMissesUnlinked`). Exactly which deliveries it misses
  is `BotPoll.PollMissesIff`.
- A thread that read the shutdown flag in time still queues its request after
  the splice, so a request of any class can be queued when the drain ends, not
  called back (`CurlDrain.LateSubmitStays`); the comment on the drain names
  TRANSACTIONAL requests only. Exactly which are is `CurlDrain.Multi.Drain`.
- With two providers of one feature a reload can trip the dependency refusal
  (`PluginTeardown.TwoProvidersTrip`); exactly when is
  `PluginTeardown.RefusedIff`.
- A reclaim before the load overwrites a stored row
  (`KvWitnesses.EarlyReclaimOverwrites`); a value set before the load over an
  unreadable row is lost at the next reload
  (`KvWitnesses.SetBeforeLoadStrands`) although the load's message says the
  default is used; a number written in more than 255 bytes can read differently
  at load and at registration (`KvWitnesses.LongRowDrifts`). Exactly which runs
  lose a value is `KvRestore.ReloadLosesIff` and `KvRestore.RestartLosesIff`.
- A set that the key's unregistration meets before it is written is forgotten
  (`KvSurvives.UnregisterForgets`); what a set survives is
  `KvSurvives.SetSurvives`.
- A method instance whose name has 64 bytes or more is not found by that name,
  and the name can be registered again (`MethodNames.LongNameRegistersTwice`).
  Exactly when is `MethodNames.RegisteredIsFoundIff` and
  `MethodNames.RegisterApartIff`.
- A bot with two method kinds can reach two commands by one name, and command
  names that differ only past 31 bytes are accepted and stored alike
  (`CmdLookup.TwoKindsClash`, `CmdLookup.LongNamesClash`). Exactly when is
  `CmdLookup.TwoMatchIff` and `CmdLookup.AddedUnambiguousIff`.

## Model

| member | source | states |
|---|---|---|
| BotRegistry.FindBot | core/bot.c:224-247 | a hit is a linked instance with that id, a miss means no linked instance has it |
| BotRegistry.BoundIsFirst | core/bot.c:2174-2194 | a suspend takes the first users of the driver in list order, up to its cap |
| BotRegistry.InflightNonZeroIff | core/bot.c:1044-1082 | the in-flight sum is non-zero exactly when some linked instance counts for the mapping |
| BotRegistry.Registry.Acquire | core/bot.c:224-247 | takes one reference on the instance with the id, and nothing else changes |
| BotRegistry.Registry.Claim | core/bot.c:269-284 | first section of a release: claims the owed teardown only as the last inside |
| BotRegistry.Registry.Drop | core/bot.c:297-310 | second section of a release: drops the reference and says whether this caller frees |
| BotRegistry.Registry.Detach | core/bot.c:318-356 | parks the driver or hands its teardown to the caller |
| BotRegistry.Registry.UnlinkDoomed | core/bot.c:1256-1273 | unlinks the instance, dooms it, and counts a deferred free when it is still held |
| BotRegistry.Registry.CountInflight | core/bot.c:1044-1082 | the walk returns the in-flight sum |
| BotMemory.StepMem | core/bot.c:224-356 | every step keeps references, list, ids and the deferred-free count exact |
| BotHandles.StepHandles | core/bot.c:224-356 | every step keeps each live handle in one slot, out of every slot once its teardown began, there exactly while a driver with create() is, and the calls on it in order |
| BotTheorems.StepInv | core/bot.c:224-356 | every step keeps the whole protocol invariant |
| BotTheorems.RunInv | core/bot.c:224-356 | the invariant holds in every state of every run |
| BotTheorems.DestroyAtMostOnce | core/bot.c:249-356 | in every run each handle is destroyed at most once |
| BotTheorems.StopBeforeDestroy | core/bot.c:249-258 | in every run a teardown stops a handle at most once and before it destroys it, and no other call on the handle comes after either |
| BotTheorems.HandleIffCreated | core/bot.c:2250-2272 | in every run an instance has a handle exactly while a driver with create() is attached |
| BotTheorems.DestroyNeverUnderDelivery | core/bot.c:261-356 | no delivery that acquired a handle is still inside when it is destroyed |
| BotTheorems.FreedOnceNeverTouched | core/bot.c:297-310 | each instance is freed at most once and no step touches it afterwards |
| BotTheorems.FreedOnlyWhenUnreachable | core/bot.c:1256-1287 | an instance leaves memory only doomed, off the list and without a holder |
| BotTheorems.QuiescentMeansFreed | core/bot.c:1256-1287 | once its deliveries and the pending frees are done, a destroyed instance is gone |
| BotTheorems.DrainReadsZero | core/bot.c:2995-3020 | bot_deferred_frees is the number of doomed instances with references, so zero means no free is owed by a holder |
| BotTeardown.ClaimsIffAlone | core/bot.c:269-284 | a release claims the owed teardown exactly when it holds the only reference |
| BotTeardown.ParkedStep | core/bot.c:261-356 | one step of any thread: a parked teardown is lost exactly by a detach under references or by the free, taken over whole exactly by a release that is alone, and else stays |
| BotTeardown.TeardownLostIff | core/bot.c:261-356 | over every run, resumes included: a parked teardown with something to call is lost, neither stop() nor destroy() called, exactly when overwritten by another detach under references, or when its instance is freed after being left with nobody inside by an overlapping release or from the start; else it is parked, taken over, or run with exactly the calls it asks for |
| BotTeardown.ClaimedIsRun | core/bot.c:286-295 | every call a claimed teardown asks for is made before the claimer drops its reference |
| BotTeardown.PendingIsRun | core/bot.c:318-356 | every call is made of a teardown that the detaching thread keeps for itself |
| BotStops.SuspendTakesUsers | core/bot.c:2174-2194 | a suspend takes every user of the driver, or the first 64, marks them, and changes nobody else |
| BotStops.StepFlags | core/bot.c:2174-2201 | until it is detached, a suspended bot is due a stop exactly if it is running |
| BotStops.DetachOwes | core/bot.c:318-356 | a detach leaves driver, handle and stop flag to the caller when nobody holds the instance, and else parked |
| BotStops.DetachedStopsFirst | core/bot.c:249-356 | over every run after a detach: stop() is called by the teardown only if the detach asked for it, and if it did, destroy() not without it and not before it |
| BotStops.SuspendStopsRunning | core/bot.c:2162-2213 | over every run, a suspend stops exactly the bots that were running, before their handle is destroyed |
| BotRunning.StepSteady | core/bot.c:1218-1236 | every step keeps the invariant, and a bot being destroyed is not running |
| BotRunning.StartNeedsDriver | core/bot.c:1853-1965 | only bot_start makes a bot run, and only with its driver attached |
| BotRunning.RunningStoppedFirst | core/bot.c:1186-1236 | in every run, the driver of a bot that was running at some moment is destroyed only after stop() was called on its handle since |
| BotWitnesses.OverlappingReleasesStrandTeardown | core/bot.c:269-304 | a run in which two overlapping releases free the instance and the handle is never destroyed |
| BotWitnesses.DetachInsideReleaseStrands | core/bot.c:269-344 | a run with one delivery in which a detach between its two release sections strands the teardown |
| BotWitnesses.SecondDetachOverwritesTeardown | core/bot.c:318-356 | a run without overlapping releases in which a re-attached bot is destroyed under its first delivery and the first handle is never destroyed |
| BotWitnesses.SuspendStopsThenDestroys | core/bot.c:249-258 | a run in which a suspended running bot is stopped, then destroyed |
| BotPoll.PollMissesIff | core/bot.c:1044-1082 | from its acquire on, a delivery executing in the mapping is left out exactly when its instance is off the list, has no vtable after a claim, or was last attached outside the mapping; otherwise the poll is not zero |
| BotWitnesses.PollMissesClaimedTeardown | core/bot.c:1065-1072 | a run in which the poll reads zero while a claimed teardown is still to run |
| BotWitnesses.PollMissesUnlinked | core/bot.c:1058-1062 | a run in which the poll reads zero while a delivery is inside a destroyed bot |
| PluginGraph.StuckMeansNoOrder | core/plugin.c:1070-1097 | a placement that cannot go on means no ordering satisfies all requirements |
| PluginGraph.StuckMeansCycle | core/plugin.c:1006-1036 | a stuck placement whose features all exist has a requires/provides cycle among the unplaced |
| PluginResolve.Offers | core/plugin.c:119-127 | true exactly when the plugin provides the feature |
| PluginResolve.FeatureIn | core/plugin.c:941-957 | true exactly when a placed plugin provides the feature |
| PluginResolve.FeatureExists | core/plugin.c:959-978 | true exactly when another plugin provides the feature |
| PluginResolve.Satisfied | core/plugin.c:1083-1091 | true exactly when every requirement has a placed provider |
| PluginResolve.Pass | core/plugin.c:1076-1096 | one pass extends a valid placement, or shows it stuck |
| PluginResolve.PlaceAll | core/plugin.c:1070-1097 | the loop ends with all placed or a stuck placement |
| PluginResolve.Report | core/plugin.c:1006-1036 | missing means a requirement nobody else provides, circular means none is missing |
| PluginResolve.Resolve | core/plugin.c:1038-1115 | ordered exactly when some order satisfies everything; then a permutation in dependency order, else the list unchanged and a true verdict, with a cycle among what its own placement left over |
| PluginReload.Joins | core/plugin.c:516-527 | true exactly when the plugin requires a feature of a member |
| PluginReload.ClosurePass | core/plugin.c:505-529 | one pass adds only forced members and settles or grows |
| PluginReload.Closure | core/plugin.c:482-556 | the least closed set around the target, in list order, refused exactly above the cap |
| PluginTeardown.RefusedIff | core/plugin.c:232-249 | when the closure is unloaded in reverse, the refusal at a member trips exactly when an earlier member requires a feature of it |
| PluginTeardown.ResolvedForwardOnly | core/plugin.c:797-803 | in a resolved list with one provider per feature no member of a closure requires a feature of a later one |
| PluginTeardown.RemoveKeepsResolved | core/plugin.c:425-447 | removing a plugin nobody requires keeps the dependency order |
| PluginTeardown.TwoProvidersTrip | core/plugin.c:232-249 | a resolved list with two providers in which the refusal trips inside the least closure of a target |
| PluginLoader.DependedOn | core/plugin.c:232-249 | true exactly when another plugin requires a feature of this one |
| PluginLoader.Loader.Load | core/plugin.c:131-199 | prepends a plugin with a new name, refuses otherwise |
| PluginLoader.Loader.Unload | core/plugin.c:212-463 | removes the named plugin exactly when it is found, not depended on and nothing else refuses |
| PluginLoader.Loader.ResolveAll | core/plugin.c:1038-1115 | reorders the registry by the resolution, or leaves it |
| PluginLoader.Loader.Restore | core/plugin.c:564-600 | loads back what loads of a snapshot and resolves: a dependency order of that if there is one, else as loaded; with nothing lost the whole list in order |
| PluginLoader.Loader.TakeDown | core/plugin.c:797-837 | unloads the closure in reverse up to the first member that refuses or that an earlier member requires; the rest stays in dependency order |
| PluginLoader.Loader.Reload | core/plugin.c:717-864 | succeeds exactly when the target is loadable and its least closure fits, has paths, suspends, and no member refuses, is required by an earlier one or fails to load back; the registry is untouched before the teardown, else what stayed and what loaded back, in order if it has one; with nothing lost the same plugins in order |
| CurlQueues.IndexOrder | core/curl.c:12-22 | the classes have distinct indices, TRANSACTIONAL before NORMAL before BULK |
| CurlQueues.SweepSplits | core/curl.c:1381-1412 | a sweep splits a queue into survivors and flagged requests and loses none |
| CurlQueues.SubQueue.Push | core/curl.c:643-660 | appends at the tail of the linked queue |
| CurlQueues.SubQueue.Pop | core/curl.c:27-52 | takes the head of the linked queue and repairs the tail |
| CurlQueues.SubQueue.SpliceOnto | core/curl.c:1271-1276 | moves the whole chain in front of the cancel list |
| CurlQueues.SubQueue.Sweep | core/curl.c:1381-1412 | unlinks the flagged nodes in place, keeps the survivors in order, rebuilds tail and count |
| CurlScheduler.Scheduler.PopHighest | core/curl.c:27-52 | the oldest request of the most urgent non-empty class |
| CurlScheduler.Scheduler.Enqueue | core/curl.c:631-660 | refused exactly when full, else last in its own class |
| CurlScheduler.Scheduler.SweepQueued | core/curl.c:1371-1412 | all three queues swept onto one cancel list, total kept |
| CurlScheduler.Scheduler.SpliceRest | core/curl.c:1256-1282 | every class but TRANSACTIONAL spliced off, TRANSACTIONAL untouched |
| CurlSteps.StepInv | core/curl.c:56-131 | every step keeps the lists, the fields, the callback ledger and the counts |
| CurlTheorems.OnePlace | core/curl.c:56-131 | a request struct is on exactly one list, once, and queued under its own priority |
| CurlTheorems.CalledAtMostOnce | core/curl.c:875-1008 | no request is called back twice in any run |
| CurlTheorems.CalledOnceIffDelivered | core/curl.c:875-1008 | a request given back was called exactly once if completed, swept or drained, and never otherwise |
| CurlTheorems.CancelHitsItsRequest | core/curl.c:689-734 | a cancel flags the live request of that id when it is on the list searched, and changes nothing else |
| CurlTheorems.CancelAfterExit | core/curl.c:689-734 | after a request is given back a cancel of its id does nothing, even once the struct is reused |
| CurlTheorems.ActiveCounted | core/curl.c:944-975 | curl_active_qs holds the number of in-flight requests of each class |
| CurlOrder.NeverOvertaken | core/curl.c:27-52 | in every run no request is started while one queued before it in its class is still waiting |
| CurlOrder.UrgentFirst | core/curl.c:27-52 | nor while a more urgent class has one waiting |
| CurlOrder.LeavesQueue | core/curl.c:1251-1412 | a queued request nobody cancelled leaves its queue only to be started, at the end of the loop, or, outside TRANSACTIONAL, aborted |
| CurlOrder.QueuedAsChosen | core/curl.c:592-660 | a request is queued last in the class its caller chose, whatever others did in between |
| CurlDrain.Multi.Submit | core/curl.c:631-660 | a late submit goes last in its class, or is refused when the queues are full |
| CurlDrain.Multi.Finish | core/curl.c:875-981 | one callback, the class count down, the request off the in-flight list |
| CurlDrain.Multi.SpliceAndAbort | core/curl.c:1256-1290 | calls back, aborted, exactly the requests queued outside TRANSACTIONAL at the splice, BULK before NORMAL in order; the queues since hold the submissions made since, as far as there was room |
| CurlDrain.Multi.AbortInFlight | core/curl.c:1292-1307 | aborts exactly the in-flight requests outside TRANSACTIONAL, in order, and leaves the others in order |
| CurlDrain.Multi.Pump | core/curl.c:1309-1341 | the callbacks are exactly the first report about each request in flight, in order and with its result; the rounds run until all are reported or time is up |
| CurlDrain.Multi.FinishRound | core/curl.c:1322-1336 | one round passes on the first report about each request still in flight, in order and with its result |
| CurlDrain.Multi.ForceAbort | core/curl.c:1343-1355 | aborts exactly what is left in flight, in order |
| CurlDrain.Multi.Drain | core/curl.c:1251-1364 | whatever others submit meanwhile: the exact sequence of callbacks; every request queued outside TRANSACTIONAL at the splice or in flight called back once, and nobody else; aborted, but for a TRANSACTIONAL one in flight, which is called back as a round that ran first reported it and aborted only if none did; counts zero; queued TRANSACTIONAL in front in order, then per class exactly the first submissions since the splice for which there was room |
| CurlDrain.DrainReaches | core/curl.c:1251-1364 | those callbacks reach the spliced and the in-flight requests, once each |
| CurlDrain.DrainSays | core/curl.c:1251-1364 | they say aborted outside TRANSACTIONAL, and what was reported first about a TRANSACTIONAL request in flight |
| CurlDrain.LateSubmitStays | core/curl.c:624-660 | a drain after which a late request, of any class, is queued and not called back |
| KvCodec.ParseNumberIff | core/kv.c:153-247 | a text is accepted as a number exactly when it is blanks, at most one sign and digits whose scanned value is in range |
| KvCodec.ParseBoolIff | core/kv.c:235-246 | a text is accepted as a boolean exactly when it is 1 or 0, or spells true or false in any case |
| KvCodec.Ranges | core/kv.c:153-247 | each integer type holds exactly the values of its width |
| KvCodec.RoundTrip | core/kv.c:153-279 | the serialised value reads back as the value, for every type and value |
| KvCodec.ChangedIff | core/kv.c:281-294 | comparing serialised text is comparing values |
| KvCodec.ShowFits | core/kv.c:249-279 | no serialised value is cut by the buffer a row is read through |
| KvIntern.Pool.Intern | core/kv.c:96-130 | returns the one copy of the string, keeps all others |
| KvIntern.Pool.PointerIsValue | core/kv.c:281-289 | two interned strings are one pointer exactly when equal |
| KvCell.Registered | core/kv.c:472-624 | a new entry holds its declaration; dirty exactly before the load or without a row; a value other than the default is the cut row's |
| KvTable.Table.Find | core/kv.c:78-88 | finds the entry of a key exactly when it is live |
| KvTable.Table.Register | core/kv.c:472-624 | refused exactly for a bad default or a live key; else the entry is as declared, with the row read back and clean once loaded, else dirty; no other key changes |
| KvTable.Table.Set | core/kv.c:836-865 | refused exactly for an unknown key or bad text; else the entry holds the parsed value, dirty when that changed it, with type, default, owner and row as they were; no other key changes |
| KvTable.Table.Reset | core/kv.c:1664-1708 | the entry is back at its default, clean, and the row gone; no other key changes |
| KvTable.Table.Delete | core/kv.c:1602-1642 | entry and row are gone; no other key changes |
| KvTable.Table.Unregister | core/kv.c:1742-1784 | the entry is gone and the row stays; no other key changes |
| KvTable.Table.LoadRows | core/kv.c:1945-2069 | every live entry with a row takes its value if it fits and is clean, nothing else changes, and the store is loaded |
| KvTable.Table.FlushAll | core/kv.c:2071-2127 | nothing before the load, else every dirty entry written as type and text and clean, nothing else changes |
| KvTable.Table.ReclaimOwned | core/kv.c:1786-1879 | every entry of the range gone, the dirty ones written, nothing else changes |
| KvTable.Table.Claim | core/kv.c:2185-2237 | every row without an entry, of a known type its text fits, gets one, nothing else changes |
| KvTheorems.KeptStep | core/kv.c:1786-1879 | one call leaves an untouched row alone unless it reclaims a differing dirty entry before the load |
| KvTheorems.UntouchedRowSurvives | core/kv.c:2071-2127 | over any run without set, reset or delete of the key, the row is the same at every moment exactly when no such early reclaim occurs |
| KvTheorems.LateReclaimsAreSafe | core/kv.c:1786-1879 | reclaims after the load never overwrite |
| KvTheorems.ReadingsAgree | core/kv.c:399-433 | load and registration read a row alike unless it is a number of more than 255 bytes |
| KvTheorems.CleanAgrees | core/kv.c:1945-2012 | after any run, for every row, a clean entry holds one of the two readings of its readable row, or its default when there is no row |
| KvTheorems.ReloadRestoresIff | core/kv.c:1786-1879 | reclaim and re-registration restore the value exactly when it is neither held only in memory nor different from the row as a registration reads it; the latter only where the two readings differ |
| KvTheorems.RestartRestoresIff | core/kv.c:2014-2127 | flush, restart, registration and load restore it exactly when the same holds of the row as the load reads it |
| KvRestore.ReloadLosesIff | core/kv.c:1786-1879 | a reload loses a value exactly when some call of the run left a clean entry that a registration does not read in its row, and no later call changed the key |
| KvRestore.RestartLosesIff | core/kv.c:2014-2127 | a restart loses a value exactly when some call left a clean entry that the load does not read in its row, and no later call changed the key |
| KvRestore.QuietLoadsRestore | core/kv.c:1955-1984 | with a row of at most 255 bytes at the start, reload and restart both restore the value if no load meets a non-default value over a row it cannot read |
| KvRestore.LateSetsAreSafe | core/kv.c:1955-1984 | no load does so when every set of the key comes after the last load |
| KvTheorems.ResetSticks | core/kv.c:1664-1708 | after a reset neither entry nor row holds anything but the default until somebody sets the key |
| KvSurvives.SetSurvives | core/kv.c:836-865 | a set that changes the value comes back exactly over flush and restart, after any calls that neither set, reset nor delete the key, nor unregister or load over it before it is written |
| KvSurvives.QuietCalls | core/kv.c:836-865 | no call disturbs it that is not a load and does not set, reset, delete or unregister the key |
| KvSurvives.SetComesBackIff | core/kv.c:836-865 | right after an accepted set, flush and restart bring the value back exactly when there was something to write or the row or default said so already |
| KvSurvives.UnregisterForgets | core/kv.c:1742-1784 | a set that is unregistered before it is written and does not come back |
| KvWitnesses.EarlyReclaimOverwrites | core/kv.c:1856-1879 | a reclaim before the load that overwrites a stored row |
| KvWitnesses.SetBeforeLoadStrands | core/kv.c:1955-1984 | a value set before the load that the load leaves only in memory |
| KvWitnesses.RowReadTwice | core/kv.c:399-433 | the load parses a row whole, a registration parses its first 255 bytes |
| KvWitnesses.LongRowDrifts | core/kv.c:399-433 | a long row that loads as 5 and re-registers as 0 |
| MethodTheorems.StepInv | core/method.c:67-276 | every step keeps the reference, delivery and serial invariants |
| MethodTheorems.RefsAreExact | core/method.c:67-276 | refs is the registry's reference plus the handouts, in every state of every run |
| MethodTheorems.FreedAlone | core/method.c:78-92 | an instance about to be freed is unlinked and has no handout |
| MethodTheorems.FreedOnceNeverTouched | core/method.c:78-92 | no instance is freed twice or touched after |
| MethodTheorems.NothingLeaks | core/method.c:78-92 | an instance without references is on its way to be freed |
| MethodTheorems.DeliveryCallsAll | core/method.c:706-758 | a delivery calls every subscriber on its snapshot once, in order, because the cap bounds the list |
| MethodTheorems.DeliveryKeepsAlive | core/method.c:735-739 | while a delivery is in its callbacks its instance is not on its way to be freed, and holds and captures can be taken on that reference alone |
| MethodNames.RegisteredIsFoundIff | core/method.c:101-157 | a new instance is found by its name exactly when the name fits its buffer |
| MethodNames.RegisterApartIff | core/method.c:112-128 | a registration keeps linked names apart exactly when the name is free as stored |
| MethodNames.FittingNamesStayApart | core/method.c:112-128 | linked names stay apart over every run whose names fit |
| MethodNames.LongNameRegistersTwice | core/method.c:112-128 | a name too long for its buffer is registered twice |
| MethodNames.DeliveryCallsSubscribers | core/method.c:706-758 | a delivery that ends has called exactly the subscribers its instance had when it began, in list order |
| MethodNames.SubscriberIsCalled | core/method.c:599-758 | a subscriber is called by every delivery begun while its instance is registered and nobody unsubscribes its name |
| MethodRegistry.Registry.Find | core/method.c:253-276 | the first instance of that name, with one more reference |
| MethodRegistry.Registry.Subscribe | core/method.c:599-651 | refused exactly for a duplicate, an empty name or a full list, else first in line |
| MethodRegistry.Registry.Unsubscribe | core/method.c:653-686 | takes the named subscriber, others keep their order |
| MethodRegistry.Registry.Copy | core/method.c:740-747 | the snapshot array holds the list up to its size |
| CmdForest.AddedForest | core/cmd.c:346-399 | registering keeps list, links and nesting of masks |
| CmdForest.MaskUnder | core/cmd.c:383-391 | a method is offered exactly when the declaration and the parent both offer it |
| CmdSubtree.CollectIs | core/cmd.c:550-567 | the walk collects a definition and its descendants, each once |
| CmdDetach.DetachedForest | core/cmd.c:615-670 | detaching a subtree keeps the forest and shortens the list by its size |
| CmdOwned.OwnIsLeft | core/cmd.c:748-814 | when its turn comes an owned root has below it exactly what no lower owned root took along |
| CmdOwned.SmallSubtreesFit | core/cmd.c:748-814 | every owned root fits when no owned subtree exceeds the array |
| CmdReclaim.CollectInto | core/cmd.c:550-567 | the post-order subtree in the array, or 0 exactly when it does not fit |
| CmdReclaim.KindsOverlap | core/cmd.c:120-136 | true exactly when a filter is absent or they share a kind |
| CmdReclaim.Commands.CheckCollisions | core/cmd.c:285-308 | refused exactly when an overlapping sibling answers to the name or abbreviation |
| CmdReclaim.Commands.Register | core/cmd.c:402-545 | refused exactly on a collision; else the definition is as declared, offered where it and its parent are, and its parent's first child; the others, count and forest are kept |
| CmdReclaim.Commands.Detach | core/cmd.c:615-670 | the whole subtree or nothing, exactly by size; count and forest kept |
| CmdReclaim.Commands.NextRoot | core/cmd.c:736-745 | an owned definition under a foreign parent with no other below it, or none is owned |
| CmdReclaim.Commands.ReclaimOwned | core/cmd.c:748-814 | ends; takes only what is below the owner's definitions, and all of it exactly when every owned root fits the array without the owned roots below it |
| CmdLookup.AddedUnambiguousIff | core/cmd.c:346-399 | a registration keeps siblings unambiguous exactly when its strings are clear as stored |
| CmdLookup.RunKeeps | core/cmd.c:346-670 | over every run of registrations and removals the forest stays consistent, and siblings stay unambiguous throughout exactly when every registration was clear as stored, as it is when the names fit |
| CmdLookup.FindChild | core/bot_cmd.c:540-575 | a child the bot may reach, exact name before abbreviation and the first of its kind, none only if none matches; for a bot with one kind the only one |
| CmdLookup.OneMatch | core/bot_cmd.c:521-575 | for a bot with one method kind at most one child answers to a string |
| CmdLookup.TwoMatchIff | core/bot_cmd.c:521-575 | a bot reaches two children by one string exactly when it is admitted to both, they share a string and their filters share no kind |
| CmdLookup.TwoKindsClash | core/bot_cmd.c:521-575 | a bot with two kinds that reaches two children of one registered parent by one name |
| CmdLookup.LongNamesClash | core/cmd.c:143-166 | two long names accepted as different and stored alike |
| MathCombinatorics.ExactDivision | core/math_expr.c:78-87 | the division at step i is exact and gives C(n-r+i, i) |
| MathCombinatorics.Fac | core/math_expr.c:35-58 | n! exactly when it fits in 64 bits, infinity otherwise, NaN below zero |
| MathCombinatorics.Ncr | core/math_expr.c:61-90 | C(n, r) exactly when no intermediate product leaves 64 bits, infinity otherwise |
| MathBuiltins.Find | core/math_expr.c:128-149 | finds a name exactly when the table has it |
| MathBuiltins.BuiltinsSorted | core/math_expr.c:101-126 | the table is in the order the search needs |
| MathEvaluator.Parser.ParseExpr | core/math_expr.c:230-259 | a sum, left to right, as the production that EvaluatesIff gives its meaning; restores the depth unless it failed |
| MathEvaluator.Parser.ParseTerm | core/math_expr.c:261-286 | a product, left to right, as that production |
| MathEvaluator.Parser.ParseUnary | core/math_expr.c:288-305 | a run of signs, an odd number of minuses negating once, as that production |
| MathEvaluator.Parser.ParsePower | core/math_expr.c:307-332 | a power, associating to the right, as that production |
| MathEvaluator.Parser.ParseCall | core/math_expr.c:334-431 | a call with the arity its builtin has, as that production |
| MathEvaluator.Parser.ParsePrimary | core/math_expr.c:433-463 | a number, a constant, a call or a parenthesis, as that production |
| MathEvaluator.MathEval | core/math_expr.c:467-515 | a value only when the whole input is one expression |
| MathTheorems.PrintThenEvaluate | core/math_expr.c:218-463 | the printed tree evaluates to the tree's value, operator by operator over any algebra, exactly when its nesting fits the limit, and to an error otherwise |
| MathTheorems.OperatorValues | core/math_expr.c:230-332 | two numbers with one operator between them evaluate to that operation on them, in that order |
| MathSound.EvaluatesIff | core/math_expr.c:230-515 | a token stream evaluates to a value exactly when it spells a well-formed tree of that value whose nesting fits |
| Utf8.EncodingsAreValid | core/json.c:100-132 | encodings of scalar values are accepted by the automaton |
| Utf8.ValidAreEncodings | core/json.c:100-132 | whatever the automaton accepts is such an encoding |
| JsonCodec.UnescapeEscape | core/json.c:33-204 | unescaping an escaped string gives it back, for every NUL-free byte string |
| JsonCodec.EscapedCharacterReads | core/json.c:157-189 | a \u escape, or a surrogate pair of them, decodes to the character's UTF-8 |
| JsonCodec.UnescapeValid | core/json.c:134-204 | valid UTF-8 decodes to valid UTF-8, malformed escapes included |
| JsonCodec.DecodedNoNul | core/json.c:94-132 | NUL-free input decodes to NUL-free output |
| JsonCodec.EscapeInto | core/json.c:33-69 | returns the size needed, writes the prefix that fits, terminates it |
| JsonCodec.UnescapeInto | core/json.c:134-204 | writes the decoded bytes, never more than were read, and terminates them |
| JsonGrammar.BodyDecodes | core/json.c:134-204 | unescaping any string body of section 7 of RFC 8259 gives its meaning |
| JsonGrammar.EscapeIsBody | core/json.c:33-69 | an escaped string is a string body, item by item |
| JsonGrammar.EscapeWellFormed | core/json.c:33-69 | it is a string body of bytes from 0x20 up that means the string |
| JsonGrammar.EscapeIsShortest | core/json.c:33-69 | no string body with the same meaning is shorter |
| JsonGrammar.EscapeValid | core/json.c:33-69 | valid UTF-8 is escaped to valid UTF-8 |
| SseSpec.ReadingIs | core/sse.c:189-217 | reading byte by byte finds what splitting, grouping and joining the whole stream finds |
| SseSpec.DataLineIff | core/sse.c:150-175 | a line is a data field with a payload exactly when it is data, a colon, at most one space and the payload |
| SseParser.Buffer.EnsureCap | core/sse.c:27-47 | room for the bytes and a terminator, contents kept |
| SseParser.Parser.ProcessLine | core/sse.c:114-177 | a blank line emits the joined data fields, a data line adds one, others nothing |
| SseParser.Parser.Feed | core/sse.c:189-217 | after any chunks the frames are those of the whole stream |
| SseEncode.RoundTripIff | core/sse.c:189-217 | an encoded payload comes back exactly when no carriage return ends one of its lines |
| SseEncode.StreamRoundTrip | core/sse.c:189-217 | a stream of payloads without carriage returns comes back payload by payload |
| Botmanctl.DrainedServes | core/botmanctl.c:849-902 | after a drain everything received is answered or waiting, with room for a byte |
| Botmanctl.CString | core/botmanctl.c:861-869 | the command is the line up to its first NUL |
| Botmanctl.ChunkServes | core/botmanctl.c:849-925 | the answers depend on the byte stream only |
| Botmanctl.Client.Drain | core/botmanctl.c:849-902 | the consume-and-move loop computes the drained buffer |
| Botmanctl.Client.Receive | core/botmanctl.c:907-925 | after any reads, one run and delimiter per line shorter than the buffer, one refusal per longer one, room for another byte |

## Left out

- Real threads, mutexes, condition variables and clocks: lock-protected sections are atomic steps, timeouts arbitrary.
- Foreign calls (libcurl, dlopen, database drivers, strtod, libm, driver callbacks) are oracles: parameters, arbitrary choices or an abstract algebra.
- 32-bit wrap-around of reference counts, queue counts and id counters: unbounded integers.
- Bot sessions, method bindings, message routing and start() in core/bot.c beyond the driver reference protocol.
- create() that fails: in bot_create and bot_resume_driver it leaves no attachment, and has no step here.
- curl_request_submit_wait: its enqueue section is the modelled one; the bounded wait is not.
- Requests still in flight when the multi loop ends: they are never finished by the source and have no step here.
- CurlScheduler.Scheduler.SweepQueued: the loop over the three sub-queues is written out class by class.
- PluginLoader.Loader.Reload: a plugin is loaded back with the descriptor it had; changed features or names are not modelled, nor are quiesce timeouts and the residual audit.
- KV floating-point types, SQL text and escaping, kv_delete_prefix, NL responders and value-check callbacks.
- KV keys of 192 bytes or more, which the source cuts on storing: keys are whole.
- KvCell.Step: each public KV call is one step; the source runs its database queries outside kv_mutex, so calls that overlap on one key are not modelled.
- Failing database writes: every database operation succeeds.
- CmdForest.AddedForest: sibling and next chains are sequences, so relinking of the pointers themselves is not captured; parent paths are resolved by the caller.
- CmdReclaim.Commands.ReclaimOwned: its passes run as one block, while the source drops cmd_mutex between them; plugin load, init and unload are serialised by plugin_mutate_mutex, and a registration by any other thread between two passes is not modelled.
- Argument parsing, permissions, help and dispatch in core/cmd.c.
- The tokenizer, the length limit and the error position of core/math_expr.c; the model starts from tokens.
- MathCombinatorics.Fac: the rounding of the 64-bit result to double is not modelled.
- MathCombinatorics.Ncr: the rounding of the 64-bit result to double is not modelled.
- Botmanctl.Client.Receive: for a client that stays open and in command mode.
- core/pool.c, core/proc.c, core/db.c, core/alloc.c, core/main.c and the operator text output would add easier members or rest on code outside these files.

# Aurora client, observer and build-support core in Dafny

This project models six pieces of the Apache Aurora Python code base and proves properties about them:

- **Scheduler client and proxy.** `SchedulerClient.dfy` covers choosing a client from the cluster configuration, deriving `url`/`raw_url` from the serverset endpoint and an optional proxy URL, and caching the Thrift client so the client connects once. It also covers the connect loop that sleeps on an injected clock after each failed open, and the per-call retry loop of `SchedulerProxy`. That loop retries transient responses and timeouts, and retries transport exceptions only when the call passes `retry=True`. Finally it covers argument shaping for the forwarded verbs and the translation of transport auth errors. The implementation file is not part of this model. The behaviour is the one its tests pin in `test_scheduler_client.py`.
- **Instance watcher.** `InstanceWatcher.dfy` has a fake integer clock, a fake event and the polling loop. The loop queries RUNNING tasks of the job and health-checks each unfinished instance. An instance that fails is never checked again. The loop stops when every instance has finished and returns the failed set, or `None` when terminated. The implementation file is not part of this model. The behaviour is the one `test_instance_watcher.py` pins.
- **Wheel build support.** `BuildWheels.dfy` covers `parse_requirements`, with comment and blank filtering and in-place `-r` inclusion. It also covers `normalize_req` exactly as written, first-occurrence de-duplication, the pip command, and the three wheel patches: removing `Requires-Dist:` lines, the `twitter.common.lang` rewrite and the `twitter.common.zookeeper` rewrite. The file's package dispatch is included too.
- **HTTP Basic credentials of the client.** `AuthModule.dfy` (with `Base64.dfy`, the encoder and decoder of section 4 of RFC 4648) covers `_basic_auth_str`. That function builds the header value of section 2 of RFC 7617 from Latin-1 encoded credentials. The file also covers `BasicAuth.__call__` and the two auth modules.
- **Observer Basic authentication and routes.** `HttpObserver.dfy` covers the cache-aside user lookup, the credential decision, the 401 challenge, plugin setup and installation, and the `handle_main` parameter validation. It also covers the `handle_process` run table.
- **kazoo recipe shims.** `KazooCompat.dfy` covers the get-or-create module registry, the set-if-absent attribute setter, the `Counter` shim, the `SetPartitioner` shim that always raises, and the wiring of every shim submodule under `kazoo.recipe`.

`Wrappers.dfy` holds `Option` and `Result`. `Text.dfy` holds the Python `str` operations the code relies on: `strip`, `splitlines`, `join`, `startswith`, `replace`, `lower` and `int()`.

The model treats its external dependencies as inputs:

- Thrift stub outcomes and transport opens are scripts: `seq<Outcome>` and `seq<bool>`.
- The ZooKeeper serverset is a `seq<ServiceInstance>`.
- The netrc database is a map.
- Redis is a map.
- The shared `ExpiringDict` is a `UserCache` object.
- SHA-256 and its hex digest form an uninterpreted function.
- `Path.resolve` and the file system are a function and a map of file contents.
- The check of whether `kazoo.recipe` can be imported is a boolean.

## Model

| member | source | states |
|---|---|---|
| SchedulerClient.Choose | src/test/python/apache/aurora/client/api/test_scheduler_client.py:644-650 | no cluster is a type error; a cluster with neither a truthy `zk` nor a truthy `scheduler_uri` is a value error; a truthy `zk` picks the ZooKeeper client for that cluster, otherwise the direct client for `scheduler_uri` |
| SchedulerClient.SessionHeaders | src/test/python/apache/aurora/client/api/test_scheduler_client.py:405-457 | the session carries the bypass-leader-redirect header, set to `true`, exactly when bypass is requested, and no other header |
| SchedulerClient.ResolveUri | src/test/python/apache/aurora/client/api/test_scheduler_client.py:314-357 | the URL comes from the `https` additional endpoint, else from the `http` one; there is none when neither exists |
| SchedulerClient.SingleEndpointUrl | src/test/python/apache/aurora/client/api/test_scheduler_client.py:314-357 | an instance whose only additional endpoint is `scheme` resolves to `scheme://host:port` |
| SchedulerClient.Target | src/test/python/apache/aurora/client/api/test_scheduler_client.py:568-642 | the direct client targets its URI; the ZooKeeper client reuses a known URI and otherwise resolves the first serverset instance, failing when the serverset is empty |
| SchedulerClient.ApiUrl | src/test/python/apache/aurora/client/api/test_scheduler_client.py:359-365 | the Thrift endpoint is the raw URL followed by `/api` |
| SchedulerClient.FirstOpen | src/test/python/apache/aurora/client/api/test_scheduler_client.py:372-381 | the index of the first successful open: it succeeded and every earlier open failed |
| SchedulerClient.Clock.Sleep | src/test/python/apache/aurora/client/api/test_scheduler_client.py:372-381 | records one sleep of the given length |
| SchedulerClient.Sleeps | src/test/python/apache/aurora/client/api/test_scheduler_client.py:372-381 | `n` sleeps, each of the retry timeout |
| SchedulerClient.SchedulerClient.constructor | src/test/python/apache/aurora/client/api/test_scheduler_client.py:385-401 | a new client keeps its user agent, auth, verbosity, bypass flag and retry timeout, and has no URI or Thrift client yet |
| SchedulerClient.SchedulerClient.ConnectScheduler | src/test/python/apache/aurora/client/api/test_scheduler_client.py:372-381 | opens until the first success, sleeping the retry timeout after each failure, and returns the client for that URL |
| SchedulerClient.SchedulerClient.RawUrl | src/test/python/apache/aurora/client/api/test_scheduler_client.py:314-357 | `raw_url` is the target URL; the ZooKeeper client caches it; the Thrift client is untouched, so reading never connects |
| SchedulerClient.SchedulerClient.Url | src/test/python/apache/aurora/client/api/test_scheduler_client.py:314-357 | with a proxy URL, `url` is the proxy; otherwise it equals `raw_url`; reading never connects |
| SchedulerClient.SchedulerClient.Connect | src/test/python/apache/aurora/client/api/test_scheduler_client.py:652-654 | connects to `raw_url + "/api"` after sleeping once per failed open; a target error is returned without connecting or sleeping |
| SchedulerClient.SchedulerClient.GetThriftClient | src/test/python/apache/aurora/client/api/test_scheduler_client.py:359-365 | a cached client is returned with no connect and no sleep; otherwise the client connects to `raw_url + "/api"` after sleeping the retry timeout once per failed open, and caches the result; it never sleeps when it does not connect |
| SchedulerClient.Get | src/test/python/apache/aurora/client/api/test_scheduler_client.py:568-650 | fails exactly when the cluster is rejected, with the same error; otherwise a fresh client of the chosen kind, with auth from the factory and nothing cached |
| SchedulerClient.UrlAndConnectOnce | src/test/python/apache/aurora/client/api/test_scheduler_client.py:314-365 | `url == raw_url` without a proxy; with a proxy, `url` is the proxy and `raw_url` is unchanged; the first Thrift-client call connects to `raw_url/api` and the second does not connect |
| SchedulerClient.ShapeArgs | src/test/python/apache/aurora/client/api/test_scheduler_client.py:87-194 | the message-taking update verbs called with one argument get a trailing `None`; every other call is forwarded unchanged |
| SchedulerClient.ShapeExamples | src/test/python/apache/aurora/client/api/test_scheduler_client.py:160-194 | `pulseJobUpdate(id)` forwards `(id)`, `pauseJobUpdate(id)` forwards `(id, None)`, and `killTasks` is forwarded unchanged |
| SchedulerClient.Attempts | src/test/python/apache/aurora/client/api/test_scheduler_client.py:462-547 | the number of stub calls: every earlier outcome is retried and the last one is not |
| SchedulerClient.Verdict | src/test/python/apache/aurora/client/api/test_scheduler_client.py:196-200 | a returned response is the result; an unretried transport exception is `NotRetriableError`; a transport auth error becomes the proxy's `AuthError` |
| SchedulerClient.RetriedMonotone | src/test/python/apache/aurora/client/api/test_scheduler_client.py:508-547 | `retry=True` retries everything `retry=False` does, plus exactly transport exceptions |
| SchedulerClient.RetryFlagOnlyForTransport | src/test/python/apache/aurora/client/api/test_scheduler_client.py:462-547 | without transport exceptions, the retry flag changes neither the number of calls nor the result |
| SchedulerClient.RetryNeverShortens | src/test/python/apache/aurora/client/api/test_scheduler_client.py:508-547 | passing `retry=True` never makes fewer calls than `retry=False` |
| SchedulerClient.TransientThenOk | src/test/python/apache/aurora/client/api/test_scheduler_client.py:462-480 | `[TRANSIENT, TRANSIENT, OK]` gives 3 calls, 2 waits and the OK response |
| SchedulerClient.TransientTimeoutThenOk | src/test/python/apache/aurora/client/api/test_scheduler_client.py:485-503 | `[TRANSIENT, timeout, OK]` gives 3 calls, 2 waits and the OK response |
| SchedulerClient.TransportNotRetried | src/test/python/apache/aurora/client/api/test_scheduler_client.py:508-524 | without `retry`, a transport exception is `NotRetriableError` after 1 call and 0 waits |
| SchedulerClient.TransportRetried | src/test/python/apache/aurora/client/api/test_scheduler_client.py:529-547 | with `retry=True`, `[exception, OK]` gives 2 calls, 1 wait and the OK response |
| SchedulerClient.AuthErrorTranslated | src/test/python/apache/aurora/client/api/test_scheduler_client.py:196-200 | a transport auth error ends the call after one attempt as the proxy's `AuthError`, whatever follows and whatever the flag |
| SchedulerClient.SchedulerProxy.Client | src/test/python/apache/aurora/client/api/test_scheduler_client.py:359-365 | a cached Thrift client is reused; otherwise the fetched one is cached when fetching succeeded |
| SchedulerClient.SchedulerProxy.Invoke | src/test/python/apache/aurora/client/api/test_scheduler_client.py:87-200 | each attempt is one shaped stub call; retried outcomes are followed by a wait; the result is the verdict of the first unretried outcome; the cached client stays, or the fetched one becomes cached; a failed client fetch makes no call and caches nothing |
| InstanceWatcher.FakeClock.Time | src/test/python/apache/aurora/client/api/test_instance_watcher.py:39-47 | returns the current fake time |
| InstanceWatcher.FakeClock.Sleep | src/test/python/apache/aurora/client/api/test_instance_watcher.py:39-47 | advances time by exactly the given seconds |
| InstanceWatcher.FakeEvent.Wait | src/test/python/apache/aurora/client/api/test_instance_watcher.py:50-62 | waiting advances the shared fake clock by the given seconds |
| InstanceWatcher.FakeEvent.IsSet | src/test/python/apache/aurora/client/api/test_instance_watcher.py:50-62 | reports whether the event was set |
| InstanceWatcher.FakeEvent.Set | src/test/python/apache/aurora/client/api/test_instance_watcher.py:50-62 | sets the event |
| InstanceWatcher.StatusQuery | src/test/python/apache/aurora/client/api/test_instance_watcher.py:90-95 | the query names only the job key, only the RUNNING status and exactly the watched instance ids |
| InstanceWatcher.Repeat | src/test/python/apache/aurora/client/api/test_instance_watcher.py:90-95 | `n` copies of the status query |
| InstanceWatcher.ElapsedEnough | src/test/python/apache/aurora/client/api/test_instance_watcher.py:65-72 | after `p` polls the watch period has elapsed iff `p` reaches `ceil(watch/interval)` |
| InstanceWatcher.FinishFrom | src/test/python/apache/aurora/client/api/test_instance_watcher.py:126-140 | the cycle where an instance stops being checked is its first failing check, or the last cycle |
| InstanceWatcher.FinishFromHealthy | src/test/python/apache/aurora/client/api/test_instance_watcher.py:126-140 | every check before that cycle was healthy |
| InstanceWatcher.FailedIff | src/test/python/apache/aurora/client/api/test_instance_watcher.py:151-189 | an instance is reported failed iff one of its checks within the watch period fails |
| InstanceWatcher.FinishAtFirstFailure | src/test/python/apache/aurora/client/api/test_instance_watcher.py:126-140 | an instance that first fails at cycle `k` is checked until `k` and then never again, and is reported failed |
| InstanceWatcher.FinishWhenHealthy | src/test/python/apache/aurora/client/api/test_instance_watcher.py:142-149 | an instance that is always healthy is checked on every cycle and is not reported failed |
| InstanceWatcher.FailedSet | src/test/python/apache/aurora/client/api/test_instance_watcher.py:151-189 | the result holds exactly the watched instances that failed |
| InstanceWatcher.CheckAdvances | src/test/python/apache/aurora/client/api/test_instance_watcher.py:126-140 | one cycle's health check moves each instance's status from its snapshot at cycle `c` to the one at `c+1` |
| InstanceWatcher.InstanceWatcher.Terminate | src/test/python/apache/aurora/client/api/test_instance_watcher.py:191-196 | terminating sets the event |
| InstanceWatcher.InstanceWatcher.Cycle | src/test/python/apache/aurora/client/api/test_instance_watcher.py:126-140 | health-checks only unfinished instances, moving the state from one cycle's snapshot to the next |
| InstanceWatcher.InstanceWatcher.Step | src/test/python/apache/aurora/client/api/test_instance_watcher.py:126-140 | one cycle plus a wait of one interval on the event |
| InstanceWatcher.InstanceWatcher.Cycles | src/test/python/apache/aurora/client/api/test_instance_watcher.py:142-189 | polls until every instance has finished, one status query per poll; no poll happens after the last instance finishes; time advances by one interval between polls |
| InstanceWatcher.InstanceWatcher.Watch | src/test/python/apache/aurora/client/api/test_instance_watcher.py:142-196 | terminated: `None`, with no queries and no time passing; otherwise the failed set, one status query per poll, and each instance checked exactly up to its first failure or the last cycle |
| InstanceWatcher.Unfinished | src/test/python/apache/aurora/client/api/test_instance_watcher.py:142-189 | while some instance is unfinished, some instance's finish cycle is still ahead |
| InstanceWatcher.Finished | src/test/python/apache/aurora/client/api/test_instance_watcher.py:142-189 | once every instance is finished, every finish cycle is behind |
| InstanceWatcher.FinalStatus | src/test/python/apache/aurora/client/api/test_instance_watcher.py:137-140 | the final states report the failed set and give each instance `finish + 1` health checks |
| InstanceWatcher.AllHealthyPolls | src/test/python/apache/aurora/client/api/test_instance_watcher.py:142-149 | with every instance healthy, each one runs to the last cycle and the result is empty |
| InstanceWatcher.ExpectedCycles | src/test/python/apache/aurora/client/api/test_instance_watcher.py:65-72 | watching 50 seconds at a 3-second interval takes 18 polls |
| InstanceWatcher.AllFailFirst | src/test/python/apache/aurora/client/api/test_instance_watcher.py:160-167 | when all instances fail first, each finishes at cycle 0 and all are reported |
| InstanceWatcher.FailureAtLastCycle | src/test/python/apache/aurora/client/api/test_instance_watcher.py:169-189 | a failure at the last cycle is still reported |
| InstanceWatcher.SingleFailure | src/test/python/apache/aurora/client/api/test_instance_watcher.py:151-158 | one failing instance among healthy ones is reported alone |
| BuildWheels.Then | build-support/build_wheels.py:52-56 | sequencing of results: the first error wins, otherwise the requirement lists are concatenated |
| BuildWheels.ThenAssoc | build-support/build_wheels.py:52-56 | sequencing is associative |
| BuildWheels.ClassifySpec | build-support/build_wheels.py:49-56 | blank and `#` lines are skipped, `-r` lines are includes of the text after `-r`, and other lines are kept stripped |
| BuildWheels.ParseLinesAppend | build-support/build_wheels.py:47-57 | the requirements of concatenated lines are the concatenation of the requirements, in order |
| BuildWheels.ParseOneLine | build-support/build_wheels.py:48-56 | a single line contributes what its classification says |
| BuildWheels.IncludeInPlace | build-support/build_wheels.py:52-55 | a `-r` line is replaced in place by the requirements of the file resolved from the including file |
| BuildWheels.ThenClean | build-support/build_wheels.py:52-56 | concatenating clean lists stays clean |
| BuildWheels.ParseFileClean | build-support/build_wheels.py:46-57 | every requirement parsed from a file, includes included, is stripped, non-blank, not a comment and not an include |
| BuildWheels.ParseLinesClean | build-support/build_wheels.py:46-57 | the same for any list of lines |
| BuildWheels.ParseLineClean | build-support/build_wheels.py:49-56 | the same for one line |
| BuildWheels.ClassifyInclude | build-support/build_wheels.py:52-55 | `-r path` is an include of `path` |
| BuildWheels.IncludeLinePath | build-support/build_wheels.py:53 | the include path of `-r path` is `path` |
| BuildWheels.ParseSkipLine | build-support/build_wheels.py:49-51 | a blank or comment line contributes nothing |
| BuildWheels.ParseIncludeLine | build-support/build_wheels.py:52-55 | an include line without a path fails on the split; otherwise it contributes the requirements of the resolved file |
| BuildWheels.ParseRequirementLine | build-support/build_wheels.py:56 | any other line contributes itself, stripped |
| BuildWheels.ParseStep | build-support/build_wheels.py:48-56 | one loop step appends the current line's requirements |
| BuildWheels.ReadLine | build-support/build_wheels.py:49-56 | the loop body computes the line's requirements |
| BuildWheels.ParseRequirements | build-support/build_wheels.py:46-57 | `parse_requirements` computes the requirements of the file |
| BuildWheels.ReadLines | build-support/build_wheels.py:47-57 | the loop computes the requirements of the lines in order |
| BuildWheels.Collected | build-support/build_wheels.py:29-36 | the collected list ends with the CPython requirements |
| BuildWheels.CollectRequirements | build-support/build_wheels.py:183-186 | collects the listed files' requirements, then the CPython requirements |
| BuildWheels.NormalizeReq | build-support/build_wheels.py:188-190 | the text before the first `<`, `=`, `>`, backslash or letter `s`, lower-cased, with `_` changed to `-` |
| BuildWheels.NormalizeConcat | build-support/build_wheels.py:188-190 | a name free of those characters, followed by one of them, normalises to the lowered name with `_` changed to `-` |
| BuildWheels.NormalizeRedis | build-support/build_wheels.py:188-190 | `redis==3.5.3` normalises to `redi` |
| BuildWheels.NormalizeTornado | build-support/build_wheels.py:188-190 | `Tornado==4.1` normalises to `tornado` |
| BuildWheels.NormalizeMesos | build-support/build_wheels.py:188-190 | `mesos.interface==0.21.1` normalises to `me` |
| BuildWheels.LowerSNamesEmpty | build-support/build_wheels.py:188-190 | every requirement starting with `s` normalises to the empty name |
| BuildWheels.KeysSpec | build-support/build_wheels.py:188-200 | a key is in the key set iff some requirement normalises to it |
| BuildWheels.FreshSubsequence | build-support/build_wheels.py:193-201 | the de-duplicated list is a subsequence of the input |
| BuildWheels.NamesCons | build-support/build_wheels.py:196-199 | adding a requirement with an unseen key in front keeps keys new and distinct |
| BuildWheels.FreshDistinct | build-support/build_wheels.py:193-201 | the kept keys are pairwise distinct and none was already seen |
| BuildWheels.FreshCovers | build-support/build_wheels.py:193-201 | every key of the input that was not already seen is kept |
| BuildWheels.FreshAppend | build-support/build_wheels.py:193-201 | de-duplicating a concatenation handles the first part, then the second part with the first part's keys as seen |
| BuildWheels.SNamesCollide | build-support/build_wheels.py:188-201 | `six` and `setuptools` share the empty key, so only the first one is kept |
| BuildWheels.Dedup | build-support/build_wheels.py:193-201 | the loop keeps the first requirement per normalised key |
| BuildWheels.DedupStep | build-support/build_wheels.py:195-200 | one pass of the de-dup loop keeps the kept list, followed by the de-dup of the rest, equal to the final result |
| BuildWheels.FreshStep | build-support/build_wheels.py:196-199 | one loop step drops a seen key or keeps the requirement and records its key |
| BuildWheels.FilesBeforeExtras | build-support/build_wheels.py:183-201 | file requirements come before the CPython requirements that survive de-duplication |
| BuildWheels.Requirements | build-support/build_wheels.py:183-201 | the requirements passed to pip are the de-duplicated collected list, or the error of collecting it |
| BuildWheels.PipCommand | build-support/build_wheels.py:60-65 | no command for an empty list; otherwise `python -m pip wheel --no-deps -w dir` followed by the requirements |
| BuildWheels.Prefixes | build-support/build_wheels.py:80-81 | one `Requires-Dist: ` prefix per dependency |
| BuildWheels.KeepLinesSpec | build-support/build_wheels.py:80-85 | the kept lines are a subsequence, none starts with a removed prefix, and nothing is removed iff no line starts with one |
| BuildWheels.KeepLinesShorter | build-support/build_wheels.py:80-85 | filtering never adds lines |
| BuildWheels.KeepLinesNoBreak | build-support/build_wheels.py:80-85 | kept lines still hold no line break |
| BuildWheels.KeepLinesTwice | build-support/build_wheels.py:80-85 | filtering twice equals filtering once |
| BuildWheels.StripRequiresIff | build-support/build_wheels.py:80-87 | the metadata text changes iff some line starts with a removed prefix |
| BuildWheels.StripRequiresOnce | build-support/build_wheels.py:80-93 | the rewritten text consists of the kept lines, and patching it again changes nothing |
| BuildWheels.StripRequiresChanges | build-support/build_wheels.py:80-93 | a reported change writes different text |
| BuildWheels.FirstMetadata | build-support/build_wheels.py:72-78 | the first archive entry under `.dist-info/` whose name ends in `METADATA`, or none when no entry qualifies |
| BuildWheels.ZkRewriteIff | build-support/build_wheels.py:134-138 | the zookeeper rewrite changes the text iff it holds either literal line |
| BuildWheels.LangRewriteChanges | build-support/build_wheels.py:103-116 | the lang rewrite changes a text holding its needle |
| BuildWheels.Wheel.FindMetadata | build-support/build_wheels.py:72-78 | finds the first metadata entry of the archive |
| BuildWheels.Wheel.PatchMetadataRequires | build-support/build_wheels.py:68-93 | rewrites the metadata entry without the removed `Requires-Dist:` lines and reports true iff that changed the archive |
| BuildWheels.Wheel.PatchTwitterCommonLang | build-support/build_wheels.py:96-124 | rewrites the lang module and reports true iff the entry exists and holds the needle |
| BuildWheels.Wheel.PatchTwitterCommonZookeeper | build-support/build_wheels.py:127-146 | rewrites both lines of the zookeeper module and reports true iff the entry exists and holds either line |
| BuildWheels.MetadataPatchIdempotent | build-support/build_wheels.py:68-93 | patching the metadata twice equals patching it once |
| BuildWheels.PackageName | build-support/build_wheels.py:155 | the package name of a wheel never contains `_` |
| BuildWheels.PackageNameConcat | build-support/build_wheels.py:155 | the package is the first `-` segment with `_` changed to `.` |
| BuildWheels.DepsFor | build-support/build_wheels.py:38-43 | the dependency list of the first exact key match, or none when no key matches |
| BuildWheels.ConcurrentNeverMatches | build-support/build_wheels.py:38-43 | the `twitter_common_concurrent` key can never match a package name; a metadata patch applies exactly to `pesos`, `compactor` and `mesos.interface` |
| BuildWheels.PackageNameMesos | build-support/build_wheels.py:155 | the mesos.interface wheel is package `mesos.interface` |
| BuildWheels.PackageNameLang | build-support/build_wheels.py:155 | the twitter_common_lang wheel is package `twitter.common.lang` |
| BuildWheels.Patched | build-support/build_wheels.py:157-165 | patching keeps the archive's entry names |
| BuildWheels.PatchWheel | build-support/build_wheels.py:155-165 | one wheel gets the patch its package name selects |
| BuildWheels.PatchWheels | build-support/build_wheels.py:149-165 | no wheel changes when the directory is missing; otherwise every wheel gets its patch |
| Base64.Encode | src/main/python/apache/aurora/common/auth/auth_module.py:74-76 | base64 text has 4 characters for every started group of 3 bytes |
| Base64.EncodeAlphabet | src/main/python/apache/aurora/common/auth/auth_module.py:74-76 | every character of the encoding is from the base64 alphabet or is `=` |
| Base64.DecodeEncode | src/main/python/apache/aurora/common/auth/auth_module.py:74-76 | decoding the encoding gives the bytes back |
| Text.StripIdempotent | build-support/build_wheels.py:49 | stripping a stripped line changes nothing |
| Text.SplitLinesOfJoined | build-support/build_wheels.py:87 | splitting lines joined by `\n` plus a trailing `\n` gives them back |
| Text.ParseIntOfIntToString | src/main/python/apache/thermos/observer/http/http_observer.py:150-157 | `int()` parses the decimal text of every integer back to it |
| AuthModule.Latin1 | src/main/python/apache/aurora/common/auth/auth_module.py:68-72 | Latin-1 encoding succeeds iff every code point is below 256, giving one byte per character; otherwise it is an encoding error |
| AuthModule.Latin1RoundTrip | src/main/python/apache/aurora/common/auth/auth_module.py:68-72 | decoding the Latin-1 bytes gives the string back |
| AuthModule.EncodeCredential | src/main/python/apache/aurora/common/auth/auth_module.py:68-72 | strings are Latin-1 encoded, bytes and `None` pass through, and an unencodable string is an encoding error |
| AuthModule.HeaderDecodes | src/main/python/apache/aurora/common/auth/auth_module.py:74-76 | the header starts with `Basic `, and base64-decoding the rest gives the joined credential bytes |
| AuthModule.EncodeUnspaced | src/main/python/apache/aurora/common/auth/auth_module.py:75 | base64 text has no surrounding space, so the `strip()` changes nothing |
| AuthModule.BasicAuthStr | src/main/python/apache/aurora/common/auth/auth_module.py:65-77 | an encoding error iff some credential is unencodable; otherwise a type error iff some credential is `None`; otherwise `Basic ` plus base64 that decodes to user bytes, `:`, then password bytes |
| AuthModule.Authenticators | src/main/python/apache/aurora/common/auth/auth_module.py:81 | the netrc entry for the host, else the `default` entry, else none |
| AuthModule.AuthorizationFor | src/main/python/apache/aurora/common/auth/auth_module.py:80-82 | no entry is a type error (unpacking `None`); otherwise the Basic string of the entry's account and password, a missing field being passed as `None` |
| AuthModule.MissingFieldRaises | src/main/python/apache/aurora/common/auth/auth_module.py:75-82 | an entry without an account or a password never yields a header, and gives the type error of joining `None` when the other field encodes |
| AuthModule.LoginIgnored | src/main/python/apache/aurora/common/auth/auth_module.py:81-82 | changing the entry's login does not change the header |
| AuthModule.AsciiCredentialsAccepted | src/main/python/apache/aurora/common/auth/auth_module.py:79-83 | an entry with an ASCII account and an ASCII password yields a header |
| AuthModule.SetHeader | src/main/python/apache/aurora/common/auth/auth_module.py:82 | the key holds the value, it is the only key of its letter case class, no other key is added, and every key of another class keeps its value |
| AuthModule.BasicAuth.Call | src/main/python/apache/aurora/common/auth/auth_module.py:79-83 | sets the `Authorization` header to the host's Basic string, replacing an entry of any letter case, and returns the same request; on an error the request is unchanged |
| AuthModule.AuthModule.Mechanism | src/main/python/apache/aurora/common/auth/auth_module.py:44-92 | `UNAUTHENTICATED` for the insecure module and `BASIC` for the basic one |
| AuthModule.AuthModule.FailedAuthMessage | src/main/python/apache/aurora/common/auth/auth_module.py:52-99 | empty for the insecure module; reading the message of the basic module raises `AttributeError` on `netrc_file` |
| AuthModule.AuthModule.IntendedFailedAuthMessage | src/main/python/apache/aurora/common/auth/auth_module.py:97-99 | the evidently intended message names the netrc file |
| AuthModule.Auth | src/main/python/apache/aurora/common/auth/auth_module.py:49-95 | no auth for the insecure module; for the basic module a failure to read the netrc file propagates, else a fresh `BasicAuth` over the parsed file |
| AuthModule.FailedAuthMessageRaises | src/main/python/apache/aurora/common/auth/auth_module.py:97-99 | as written the basic message always fails; the intended one reads `Communication with Aurora scheduler is <file>.` |
| HttpObserver.UserValueCases | src/main/python/apache/thermos/observer/http/http_observer.py:68-79 | a cache hit returns the cached value; a miss with a truthy store value returns it; a falsy one returns `None` |
| HttpObserver.UserValueTruthy | src/main/python/apache/thermos/observer/http/http_observer.py:71-79 | the cache only ever holds truthy values, and the lookup returns `None` or a truthy value |
| HttpObserver.CacheAfterOnlyUser | src/main/python/apache/thermos/observer/http/http_observer.py:74-79 | a lookup only adds the looked-up user and never changes an existing entry |
| HttpObserver.SecondLookupHits | src/main/python/apache/thermos/observer/http/http_observer.py:71-77 | after a found lookup, the next lookup of that user is a hit that makes no store query |
| HttpObserver.CacheTransparent | src/main/python/apache/thermos/observer/http/http_observer.py:68-79 | with a cache agreeing with the store, the lookup equals the truthy store value at `prefix + user`, and the cache still agrees |
| HttpObserver.HashLib | src/main/python/apache/thermos/observer/http/http_observer.py:83 | hashlib hashes bytes and refuses text |
| HttpObserver.UserHashAsWrittenRaises | src/main/python/apache/thermos/observer/http/http_observer.py:82-91 | the user hash as written always raises, whatever the credentials |
| HttpObserver.IntendedUserHashRecord | src/main/python/apache/thermos/observer/http/http_observer.py:83-85 | hashing the encoded `user:password` gives the stored record `sha256:<hex>` |
| HttpObserver.IntendedHashAccepts | src/main/python/apache/thermos/observer/http/http_observer.py:83-85 | the intended hash never raises, and the test `apply` makes with it is `Accepts` for the digest of the encoded text |
| HttpObserver.AcceptsIffStored | src/main/python/apache/thermos/observer/http/http_observer.py:84-93 | a request is accepted iff a password is present and the store holds `sha256:` plus the digest of `user:password` under `prefix + user` |
| HttpObserver.MissingCredentialRejected | src/main/python/apache/thermos/observer/http/http_observer.py:82-85 | a request without user or password is never accepted |
| HttpObserver.ChallengeNamesRealm | src/main/python/apache/thermos/observer/http/http_observer.py:96-100 | the challenge is a 401 with the single header `WWW-Authenticate: Basic realm="<realm>"` |
| HttpObserver.ApplyAsWrittenBypass | src/main/python/apache/thermos/observer/http/http_observer.py:81-101 | with the hash of line 83 fixed (the `Bare`/`Wrapped` choice `BasicAuth.Apply` makes once `userhash` succeeds), a route applied while an accepted request was in scope serves later rejected requests |
| HttpObserver.IntendedApplyChecksEvery | src/main/python/apache/thermos/observer/http/http_observer.py:89-101 | the wrapped handler forwards exactly the accepted requests and challenges the others |
| HttpObserver.UserCache.constructor | src/main/python/apache/thermos/observer/http/http_observer.py:39 | the shared cache starts empty |
| HttpObserver.BasicAuth.constructor | src/main/python/apache/thermos/observer/http/http_observer.py:44-51 | a new plugin keeps its options and realm, has no app and no store, and uses the default key prefix |
| HttpObserver.BasicAuth.Setup | src/main/python/apache/thermos/observer/http/http_observer.py:53-66 | records the app; fails with a non-unique keyword iff another Basic plugin has this keyword; otherwise connects the store at the configured URL and takes the configured key prefix |
| HttpObserver.BasicAuth.GetUser | src/main/python/apache/thermos/observer/http/http_observer.py:68-79 | `None` is looked up nowhere; otherwise the lookup, the new cache and the store queries are the cache-aside ones |
| HttpObserver.BasicAuth.Authorized | src/main/python/apache/thermos/observer/http/http_observer.py:84-85 | given the computed hash, accepts iff user and password are present and `get_user` returns `sha256:` plus that hash; the user is looked up only then |
| HttpObserver.BasicAuth.Apply | src/main/python/apache/thermos/observer/http/http_observer.py:81-101 | the hash is computed first and its error propagates with no lookup; otherwise the bare callback iff the request in scope is accepted, else the wrapper, with the cache and query log `get_user` leaves (untouched without both credentials) |
| HttpObserver.ApplyAsWrittenRaises | src/main/python/apache/thermos/observer/http/http_observer.py:81-83 | with the hash as written, `apply` raises the TypeError on every request and looks nothing up |
| HttpObserver.BasicAuth.Wrap | src/main/python/apache/thermos/observer/http/http_observer.py:89-100 | the hash is computed first and its error propagates with no lookup; otherwise forwards an accepted request and answers a rejected one with the realm's challenge, with the cache and query log `get_user` leaves (untouched without both credentials) |
| HttpObserver.WrapAsWrittenRaises | src/main/python/apache/thermos/observer/http/http_observer.py:89-91 | with the hash as written, the wrapper raises the TypeError on every request and looks nothing up |
| HttpObserver.ShouldInstallSpellings | src/main/python/apache/thermos/observer/http/http_observer.py:113-114 | the plugin is installed iff the setting is present and lower-cases to `basic` |
| HttpObserver.Registry.constructor | src/main/python/apache/thermos/observer/http/http_observer.py:109 | the class-level plugin list starts empty |
| HttpObserver.AuthenticateEverything | src/main/python/apache/thermos/observer/http/http_observer.py:111-119 | without `basic`, nothing is installed; with a conflict, setup fails and nothing is recorded; otherwise a fresh plugin is installed in the app and recorded |
| HttpObserver.HandleMainSpec | src/main/python/apache/thermos/observer/http/http_observer.py:147-160 | succeeds iff the type is allowed and offset and count parse; it forwards the parsed values; otherwise a 404 names the first bad parameter |
| HttpObserver.HandleMainRoundTrip | src/main/python/apache/thermos/observer/http/http_observer.py:150-160 | decimal offsets and counts are forwarded as the integers they spell |
| HttpObserver.HandleProcess | src/main/python/apache/thermos/observer/http/http_observer.py:203-230 | 404 for an unknown task/process and for an unrecoverable process; otherwise runs keyed exactly `0..n`, the current run at `n`, the earlier runs from history, with its status and command line |
| KazooCompat.Module.constructor | src/main/python/apache/aurora/common/kazoo_compat.py:14 | a new module has its name and no attributes |
| KazooCompat.SetDefault | src/main/python/apache/aurora/common/kazoo_compat.py:19-21 | an existing attribute is kept; an absent one is set |
| KazooCompat.SetDefaultIdempotent | src/main/python/apache/aurora/common/kazoo_compat.py:19-21 | setting a default again changes nothing |
| KazooCompat.SetDefaultCommutes | src/main/python/apache/aurora/common/kazoo_compat.py:19-21 | defaults for different names commute |
| KazooCompat.TableFacts | src/main/python/apache/aurora/common/kazoo_compat.py:177-189 | the shim submodules have distinct undotted names and each sits under `kazoo.recipe` |
| KazooCompat.Counter.constructor | src/main/python/apache/aurora/common/kazoo_compat.py:58-60 | a counter starts at 0 |
| KazooCompat.Counter.Value | src/main/python/apache/aurora/common/kazoo_compat.py:62-63 | returns the count |
| KazooCompat.Counter.Increment | src/main/python/apache/aurora/common/kazoo_compat.py:65-67 | adds the amount and returns the new count |
| KazooCompat.Counter.Decrement | src/main/python/apache/aurora/common/kazoo_compat.py:69-71 | subtracts the amount and returns the new count |
| KazooCompat.IncrementDecrement | src/main/python/apache/aurora/common/kazoo_compat.py:65-71 | incrementing then decrementing by the same amount restores the count |
| KazooCompat.Instantiate | src/main/python/apache/aurora/common/kazoo_compat.py:171-173 | constructing a shim class fails iff it is `SetPartitioner`, with its message |
| KazooCompat.OnlyPartitionerRaises | src/main/python/apache/aurora/common/kazoo_compat.py:168-175 | among the installed shim classes, only the partitioner's fails to construct |
| KazooCompat.Registry.Lookup | src/main/python/apache/aurora/common/kazoo_compat.py:12 | `sys.modules.get`: present iff the name is bound to a module |
| KazooCompat.Registry.EnsureModule | src/main/python/apache/aurora/common/kazoo_compat.py:11-16 | an existing module is returned and the registry is unchanged; otherwise a fresh module of that name is inserted and returned |
| KazooCompat.Registry.InstallShims | src/main/python/apache/aurora/common/kazoo_compat.py:32-175 | a submodule is ensured and gets each shim class it lacks, keeping attributes it already had |
| KazooCompat.Registry.Apply | src/main/python/apache/aurora/common/kazoo_compat.py:24-189 | a failed import changes nothing; otherwise existing bindings are kept, every shim submodule is installed and wired under `kazoo.recipe`, no module loses or changes an attribute it had, and modules other than `kazoo.recipe` and the shim submodules are unchanged; every other registry key keeps its binding, its `None` or its absence |
| KazooCompat.Registry.ApplyImported | src/main/python/apache/aurora/common/kazoo_compat.py:30-189 | after the import succeeded, every shim submodule is installed and reachable under `kazoo.recipe` by its last name component; existing attributes keep their values, and only `kazoo.recipe` and the shim submodules change; every other registry key keeps its binding, its `None` or its absence |
| KazooCompat.Registry.InstallSubmodules | src/main/python/apache/aurora/common/kazoo_compat.py:30-175 | ensures `kazoo.recipe` and every shim submodule, each holding its shim classes; existing attributes keep their values, and no other module changes; every other registry key keeps its binding, its `None` or its absence |
| KazooCompat.Registry.InstallAll | src/main/python/apache/aurora/common/kazoo_compat.py:32-175 | each listed name is bound to its module, which holds its classes; existing modules are reused, only modules bound to the listed names change, and existing attributes keep their values; every key not listed keeps its binding, its `None` or its absence |
| KazooCompat.Wiring | src/main/python/apache/aurora/common/kazoo_compat.py:188-189 | each module is paired with the last component of its dotted name |
| KazooCompat.DefaultsKeep | src/main/python/apache/aurora/common/kazoo_compat.py:178-189 | wiring never overwrites an existing `kazoo.recipe` attribute |
| KazooCompat.DefaultsReach | src/main/python/apache/aurora/common/kazoo_compat.py:178-189 | after wiring, every submodule's short name is an attribute |
| KazooCompat.DefaultsAbsent | src/main/python/apache/aurora/common/kazoo_compat.py:178-189 | wiring adds no other name |
| KazooCompat.DefaultsBind | src/main/python/apache/aurora/common/kazoo_compat.py:178-189 | an absent short name is bound to its own submodule |
| KazooCompat.FreshWiring | src/main/python/apache/aurora/common/kazoo_compat.py:178-189 | each shim short name absent before is bound to its shim submodule |
| KazooCompat.Wire | src/main/python/apache/aurora/common/kazoo_compat.py:178-189 | the wiring loop sets the defaults in order, keeps existing attributes and binds every short name |

## Left out

- Real time, threads and `threading.Event`: clocks and waits are integer counters, and the event is a flag.
- The scheduler client, the scheduler proxy, the instance watcher and the serverset module are not part of this model. Only the behaviour their tests pin is modelled. The Thrift stub, the transport and the ZooKeeper lookup are scripts or values passed in.
- SchedulerClient.SchedulerClient.ConnectScheduler: an open that never succeeds is not modelled, because the source retries forever; `true in opens` is required.
- SchedulerClient.SchedulerProxy.Invoke: the wall-clock deadline of the retry loop is left out, so a script must end with an outcome that is not retried.
- SchedulerClient.Target: only the first serverset instance is used. Its URL comes from the `https` additional endpoint, else the `http` one. An instance with neither gives no URL (`ResolveUri` returns `None`), and `Connect` then returns without connecting. The tests pin only instances with a single endpoint, so the source's handling of an instance with neither is not modelled.
- SchedulerClient.SchedulerProxy.Client: invalidating the client after a transport error is not modelled.
- The user-agent string and the retry timeout are parameters. URL joining is modelled only for a URI without a path: `ApiUrl` appends `/api`. The bypass header name comes from generated Thrift constants that are not part of this model. `BypassHeader` stands in for it as the constant `Bypass-Leader-Redirect`, and the contracts depend only on that one name being used.
- InstanceWatcher.InstanceWatcher.Watch: every watched instance is taken as RUNNING in each status response.
- InstanceWatcher.Stop: a watch period is taken as finished after `p` polls when `p * interval >= watch_secs`. This matches the expected cycle count, ceil(50/3)+1; the tests do not distinguish `>` from `>=`.
- BuildWheels.ParseFile: `-r` recursion has no cycle guard in the source. The model takes a fuel count, and a file that includes itself runs out of fuel where the source overflows its stack. A missing file is an error value rather than an exception.
- Zip archives, the pip subprocess, globbing, argument parsing and file I/O are left out. Files are a map of contents, and `Path.resolve` is a function parameter. A wheel is its entry names plus a map of their contents, so duplicate entry names are not modelled.
- UTF-8 decoding of file contents, and `str.lower` beyond ASCII, are left out. `lower` is exact for the `basic` and requirement-name comparisons.
- Redis, `Redis.from_url` and `close()` are left out. The store is a map passed to setup. The `ExpiringDict` time-to-live and size eviction are left out; the cache is a plain map.
- Values coming back from Redis as `bytes` under Python 3 are left out. Stored values are treated as text.
- SHA-256 and its hex digest form an uninterpreted function. `BasicAuth.Apply` and `BasicAuth.Wrap` take the request's hash computation as a parameter that may fail. `UserHashAsWritten` and `IntendedUserHash` are its two instances.
- bottle routing, templates, `HTTPResponse` internals, `socket.gethostname` and the plugin `keyword` are left out. The keyword is a parameter, because the `Plugin` base class is not part of this model. `HttpServer.abort` is modelled as a failure value.
- HttpObserver.HandleProcess: the merge of a run's `used` resources into the page is left out, and the command line is a field of the process. A falsy current run is modelled as `None`.
- Text.ParseInt: non-ASCII digits accepted by Python's `int()` are left out.
- urlparse, netrc file parsing and `to_native_string` are left out. The request host and the netrc database are inputs.
- AuthModule.SetHeader: header keys are compared by ASCII `lower`, while requests compares them by Python's full `str.lower`.
- The constant-returning method bodies of the kazoo shim classes (`Barrier`, `Election`, `Lock` and the others) are left out. Each shim class is an opaque attribute, and only `Counter`'s arithmetic and `SetPartitioner`'s failure are modelled.
- The compatibility and stub modules (sitecustomize, cgi, urlparse, twitter.common, the kazoo recipe stubs) and the build and wiring scripts are not part of this model.

## Findings

| source | as written | input that shows it | evidently intended | confidence | as-written member | corrected member |
|---|---|---|---|---|---|---|
| src/main/python/apache/aurora/common/auth/auth_module.py:97-99 | `failed_auth_message` formats `self.netrc_file`, but the constructor only sets `self._netrc_file` | any `BasicAuthModule(netrc_file=None)` whose message is read | the message names `self._netrc_file` | not executed; the attribute is plainly never assigned | AuthModule.AuthModule.FailedAuthMessage | AuthModule.AuthModule.IntendedFailedAuthMessage |
| src/main/python/apache/thermos/observer/http/http_observer.py:82-83 | `hashlib.sha256` is given a `str`, which Python 3 refuses with a TypeError, so every `apply` (and every `wrap`, lines 90-91) raises before any check | any request, with or without credentials | hash the UTF-8 bytes of `user:password` and compare `sha256:<hex>` with the store | not executed; Python 3 hashlib refuses str | HttpObserver.UserHashAsWrittenRaises | HttpObserver.IntendedUserHashRecord |
| src/main/python/apache/thermos/observer/http/http_observer.py:81-101 | `apply` returns the bare callback when the request in scope while the route is prepared is accepted, and bottle keeps that handler for the route | a route first prepared during an accepted request, then reached by a request without credentials | always return `wrap`, so each request is checked | not executed; medium, rests on bottle caching the applied callback; under Python 3 the bypass is reachable only once the hash of the previous row is fixed, because until then `apply` raises first (`HttpObserver.ApplyAsWrittenRaises`) | HttpObserver.ApplyAsWrittenBypass | HttpObserver.IntendedApplyChecksEvery |

# LabPlane verification

A Dafny model of the self-contained logic of LabPlane, one module for each source file it comes
from, with proofs over all inputs and all runs. `dafny verify dfyconfig.toml` checks everything.

Code that changes state step by step is a class or a method with loops, and each such method is
proved against a function of the old state; the theorems are lemmas about those functions. Readers
of the program's output (a POSIX shell's word splitting, an RFC 4180 reader, the wire protocol of a
chat) are defined on their own, independently of the printers they read.

What the modules are about:

* `ShellWords`, `RedisCommand`: the two printed forms of one `redis-server` command. The tokenizer
  follows sections 2.2.1 to 2.2.3 and 2.3 of the POSIX Shell Command Language. The shell form reads
  as `exec`, the argument vector and the password option, except that an extra argument with inner
  white space is one word in the shell form and several in the vector.
* `Base64Url`, `Tokens`: the session token and the two TOTP step tokens come back exactly as minted
  (RFC 4648, sections 3.2 and 5), and no token serves two purposes.
* `AuditCsv`: the audit export reads back as the rows it was printed from (RFC 4180, section 2).
* `RateLimiter`: the token bucket admits at most `burst + rate * t` calls in any window of length
  `t`, and never refuses a caller that keeps a pause of `1/rate`.
* `Scram`: the in-place XOR loop computes `Hi` of section 2.2 of RFC 5802.
* `KafkaExposure`: applying a NodePort exposure converges, and applying it again changes nothing.
* `AiUsage`: usage roll-ups are folds over the calls, and the budget alert fires once per cell.
* `BaotaTargets`: saving a target list normalises it, and saving or merging it again keeps it.
* `AuditQueue`: the bounded queue with its drain, under every interleaving.
* `SshGate`: failure counters and single-use captchas over whole runs.
* `Assistant`: the write gate and the transcript of the tool-calling loop, for any model replies.
* `AdminUsers`: the last-administrator guard over whole runs.
* `AuditStore`: reading the tail of the audit file, and pruning it.
* `LoginPolicy`: what the text of an IP allowlist means.
* `ResponseCache`: every cache hit replays an earlier answer.
* `GoStrings`, `Wrappers`: the parts of Go's `strings` and `strconv` that the above call.

Where the code differs from what is said about it:

* `ai_usage.go:193-194` says the budget alert fires at most once a day. Line 114 passes the total of
  one (date, model, feature) cell, so it fires once for each cell that reaches the budget, and a day
  can exceed the budget without any alert (`AiUsage.DayClaimFails`; `AiUsage.AlertsPerDay` says
  exactly when a day has one alert).
* `admin_users_handlers.go:385` says the guard returns true when a deletion would leave no way in.
  It also does when the only administrator's own row is what keeps the fallback account out
  (`AdminUsers.HarmlessDeletionRefused`, and the exact condition in
  `AdminUsers.DeleteGuardIsExactExceptForTheFallbackRow`).
* Saving a target list keeps the first of several defaults, merging makes the first entry the
  default; they agree exactly when there is at most one default or the first row is one
  (`BaotaTargets.RepairsAgreeIff`).
* Exposing a Kafka instance a second time does change something when its ports were left to the
  cluster and some replica's service had a port but another shape, and only then
  (`KafkaExposure.ApplyTwice`; `KafkaExposure.ForeignServiceIsRewritten` is such a cluster).
* An allowlist that was not validated can hold a token beginning with `#` in the middle of a line,
  which is lost when the tokens are stored one a line (`LoginPolicy.CommentTokenIsLost`).
* The response cache's writer does not override `WriteString`, which reaches the client without
  being captured; a buffer below the limit is the whole answer exactly when that was not used
  (`ResponseCache.CaptureIsComplete`, `ResponseCache.BypassedTextIsMissing`). No handler writes that
  way today; `io.WriteString` on the response would.
* The same writer takes a header call after the body for the status, although the client already got
  another one (`ResponseCache.LateHeaderIsTaken`); header calls before the body keep the two equal
  (`ResponseCache.TimelyStatusIsSent`).

## Model

| member | source | states |
|---|---|---|
| `ShellWords.QuoteRoundTrip` | internal/app_redis_k8s_deploy.go:170-172 | a shell reads any quoted text, quotes and newlines included, as one word with exactly that text |
| `ShellWords.RunPrint` | internal/app_redis_k8s_tuning.go:126-170 | a printed list of options is read as the same list of words, after whatever words came before |
| `ShellWords.RunParameter` | internal/app_redis_k8s_deploy.go:228-250 | a double-quoted parameter is read as one word, the variable's value, whatever it contains |
| `RedisCommand.EnterpriseFormsAgree` | internal/app_redis_k8s_tuning.go:10-93 | the text and the vector of the production settings denote the same words for every option record, defaults and the optional I/O threads included |
| `RedisCommand.RdbArgv` | internal/app_redis_k8s_tuning.go:95-124 | the vector is the words of the save rules: nothing for no rules, `--save` and the empty word when a rule turns saving off, whatever came before it |
| `RedisCommand.RdbShellFragment` | internal/app_redis_k8s_tuning.go:126-154 | the text is the printed form of the same save rules, with the same early return |
| `RedisCommand.SavingIsOff` | internal/app_redis_k8s_tuning.go:95-124 | a line that says none or off anywhere, or a single blank or quoted-empty line, makes the words `--save` and the empty word, whatever the other lines say |
| `RedisCommand.SavingIsOn` | internal/app_redis_k8s_tuning.go:95-124 | otherwise the words are those of the rules |
| `RedisCommand.RulesAppend` | internal/app_redis_k8s_tuning.go:106-122 | the rules of two lists of lines follow each other |
| `RedisCommand.RuleIs` | internal/app_redis_k8s_tuning.go:106-122 | one line gives `--save` and its first two fields, or nothing when it has fewer |
| `RedisCommand.ExtraArgsShellFragment` | internal/app_redis_k8s_tuning.go:156-170 | each non-blank extra argument is printed as one quoted word |
| `RedisCommand.ExtraArgsArgv` | internal/app_redis_k8s_tuning.go:172-185 | the vector holds the white-space fields of the extra arguments, in order |
| `RedisCommand.ExtraAppend` | internal/app_redis_k8s_tuning.go:156-185 | the words of two lists of extra arguments follow each other |
| `RedisCommand.ExtraIs` | internal/app_redis_k8s_tuning.go:156-185 | one extra argument is one word to the shell and its white-space fields in the vector, a blank one nothing |
| `RedisCommand.BuildRedisMainContainer` | internal/app_redis_k8s_deploy.go:206-268 | with a password the container runs the shell text, without one the argument vector, and only the former has the password in its environment |
| `RedisCommand.ServerWordsBegin` | internal/app_redis_k8s_deploy.go:206-264 | the vector begins with the program, the trimmed data directory if any, memory (256mb by default), policy, and yes or no for the append-only file |
| `RedisCommand.PolicyIs` | internal/app_redis.go:742-749 | the policy is one of the eight in lower case, anything else counts as allkeys-lru |
| `RedisCommand.NumbersAre` | internal/app_redis_k8s_tuning.go:50-83 | each numeric setting is followed by its decimal value, or its default when not positive |
| `RedisCommand.SwitchesAre` | internal/app_redis_k8s_tuning.go:50-93 | the two switches are yes or no as set, and I/O threads appear exactly when positive |
| `RedisCommand.ShellFormWords` | internal/app_redis_k8s_deploy.go:206-250 | for every option record and data directory a shell reads the text as `exec`, the vector's words, each extra argument as one word, and `--requirepass` with the password |
| `RedisCommand.ShellFormRefinesArgvForm` | internal/app_redis_k8s_deploy.go:206-268 | the shell's words are the argument vector between `exec` and the password option exactly when no trimmed extra argument has inner white space |
| `Base64Url.DecodeOfEncode` | internal/auth.go:157-163 | decoding unpadded base64url undoes encoding for every byte sequence |
| `Base64Url.EncodedAlphabet` | internal/auth.go:157-163 | encoded text uses only the 64 characters of the URL alphabet, so neither the dot nor the bar |
| `Base64Url.AlphabetInOrder` | internal/auth.go:157-163 | the characters stand for 0 to 63 in the order of the RFC |
| `Base64Url.ThreeKeepBits` | internal/auth.go:157-163 | three bytes and their four characters are the same 24 bits, most significant first |
| `Base64Url.FewKeepBits` | internal/auth.go:157-163 | one and two bytes are filled up with zero bits |
| `Tokens.OpenOfSign` | internal/auth_totp.go:113-139 | opening a token signed with the same key gives back the payload |
| `Tokens.OpensIffSigned` | internal/auth.go:166-189 | a token is read exactly when it is the encoded form of some bytes, a dot, and the encoded form of the MAC of those bytes under the key |
| `Tokens.SessionAcceptedIff` | internal/auth.go:166-211 | a session is accepted exactly when its five fields are signed under the key, free of bars, unexpired and of this build, and user and nonce are not blank; any role but viewer is admin |
| `Tokens.VerifyStepAcceptedIff` | internal/auth_totp.go:50-75 | exactly which tokens the verification step accepts, and as what |
| `Tokens.SetupStepAcceptedIff` | internal/auth_totp.go:84-111 | exactly which tokens the setup step accepts, and as what |
| `Tokens.MintedTexts` | internal/auth.go:151-164 | what is minted: the fields in their order, the expiry in decimal and a blank role as admin, signed under the key |
| `Tokens.ForeignTokensAreRefused` | internal/auth_totp.go:122-139 | a token signed under another key has an invalid signature for all three verifiers unless the two MACs agree |
| `Tokens.OldBuildsAreRefused` | internal/auth.go:198-200 | tokens minted under another build segment are refused by all three |
| `Tokens.BuildSegmentIs` | internal/buildversion.go:8-17 | the trimmed version, character by character, with bars and line breaks as underscores, or dev |
| `Tokens.BuildSegmentHasNoBar` | internal/buildversion.go:8-17 | the build segment cannot break the bar-joined payload, whatever version was linked in |
| `Tokens.SessionRoundTrip` | internal/auth.go:151-211 | a fresh session token verifies exactly when its fields are free of bars, user and nonce are not blank and it has not expired, and then gives the minted user and nonce and the normalised role |
| `Tokens.VerifyStepRoundTrip` | internal/auth_totp.go:44-75 | the same for the TOTP verification step: exactly the minted fields, or a failure |
| `Tokens.SetupStepRoundTrip` | internal/auth_totp.go:77-111 | the same for the TOTP setup step, where the secret may hold anything |
| `Tokens.VerifiersAreDisjoint` | internal/auth_totp.go:50-111 | no token is accepted by two of the three verifiers, for any key and any clock readings |
| `AuditCsv.AuditToCSV` | internal/api_security.go:33-42 | the loop prints the header and one line per row, in order |
| `AuditCsv.RunEscaped` | internal/api_security.go:44-49 | a reader gets an escaped field back unchanged, quoted or not |
| `AuditCsv.QuotedIfNeeded` | internal/api_security.go:44-49 | a field is quoted exactly when it holds a comma, a quote or a line break |
| `AuditCsv.CsvRoundTrip` | internal/api_security.go:33-49 | reading the export gives the header record and exactly the original rows of eight fields, for arbitrary contents |
| `RateLimiter.Limiter.Init` | internal/api_security.go:119-128 | positive arguments replace rate and burst, others leave them |
| `RateLimiter.Limiter.AllowRequest` | internal/api_security.go:130-149 | tokens stay between 0 and the burst, other addresses are untouched, and the answer and new entry are those of the bucket step |
| `RateLimiter.EntryBound` | internal/api_security.go:130-149 | an address never spends more than its tokens plus what it earns |
| `RateLimiter.WindowBound` | internal/api_security.go:101-149 | for any interleaving of addresses the calls admitted for one of them in a window number at most burst plus rate times its length, two clock readings per call included |
| `RateLimiter.CallsPerWindow` | internal/api_security.go:101-149 | the same bound with the product of rate and time written out |
| `RateLimiter.OwnCallsDecide` | internal/api_security.go:130-149 | an address gets the answers it would get alone, whatever the others do |
| `RateLimiter.AdmittedIff` | internal/api_security.go:130-149 | exactly which calls of a new address are admitted: those for which, counted from each of its earlier calls, the admissions with this one are at most the burst plus what was earned since |
| `RateLimiter.BurstIsAdmitted` | internal/api_security.go:130-149 | the first `burst` calls of a new address are all admitted, however close together and whatever the others do |
| `RateLimiter.PacedCallerIsNeverRefused` | internal/api_security.go:101-149 | a caller whose calls come at least 1/rate after the previous stored reading is never refused |
| `Scram.HiByColumns` | internal/app_kafka_scram.go:19-63 | byte j of Hi is the exclusive or of byte j of every U1 to Ui, each defined on its own |
| `Scram.HiBegins` | internal/app_kafka_scram.go:19-38 | the first two values are those of the RFC, with the number 1 in four octets |
| `Scram.XorInto` | internal/app_kafka_scram.go:31-38 | one round XORs a block into the result in place and leaves the block alone |
| `Scram.KafkaScramHi` | internal/app_kafka_scram.go:19-63 | the in-place loop computes Hi for every iteration count, the default included, without corrupting the saved block |
| `Scram.UpsertAndDeletionAgree` | internal/app_kafka_scram.go:104-136 | for every mechanism string both choose the same mechanism or both reject it, and the salted password is Hi with that mechanism's hash |
| `Scram.MechanismIs` | internal/app_kafka_scram.go:104-136 | which settings mean which mechanism, in any case and with white space around them, and which are refused and how |
| `Scram.EmptyCredentialsAreRefused` | internal/app_kafka_scram.go:65-102 | without a name or a password nothing is written |
| `KafkaExposure.Cluster.UpsertNodePortService` | internal/app_kafka_exposure.go:67-130 | on success service i has the returned port in range: the requested one; with none requested the one it already had, and then nothing changes; otherwise a new one. Only that service may have changed, and on failure nothing did |
| `KafkaExposure.Cluster.DeleteNodePortServicesRange` | internal/app_kafka_exposure.go:132-140 | exactly the services of the range are gone, except those whose deletion failed |
| `KafkaExposure.MergeEnvVar` | internal/app_kafka_exposure.go:182-193 | every variable of that name is replaced by one at the end, the others keep their order |
| `KafkaExposure.ExposureEnvShape` | internal/app_kafka_exposure.go:280-281 | after both merges the two variables stand last and once, after everything else in its old order |
| `KafkaExposure.ExposureEnvStable` | internal/app_kafka_exposure.go:280-281 | merging the same values again changes nothing, order included |
| `KafkaExposure.ExposeGiven` | internal/app_kafka_exposure.go:241-254 | the explicit branch writes service i with port i, and is a no-op on services that are so already |
| `KafkaExposure.ExposeAuto` | internal/app_kafka_exposure.go:255-269 | the automatic branch returns one port per replica: a service that has a port keeps it and stays as it was, every other one is written; so all are as the code writes them exactly when none was foreign before |
| `KafkaExposure.AssignedIsWrittenIff` | internal/app_kafka_exposure.go:257-263 | what makes the difference is the state before: some replica has a service with a port that is not the one the code would write |
| `KafkaExposure.AfterDeletion` | internal/app_kafka_exposure.go:273-277 | after the deletion services exist exactly for the replicas, up to failed deletions and indexes beyond its reach |
| `KafkaExposure.ApplyKafkaInstanceExposure` | internal/app_kafka_exposure.go:195-299 | a success converges with pairwise distinct ports that agree with the stored configuration, given ports stay and automatic ones are the old ones where there were any, a failure leaves the StatefulSet alone, a settled instance is left as it is, a success that leaves no service behind settles everything exactly when it met no foreign one, and then every replica's service leads through the stored port to the pod with its own number |
| `KafkaExposure.ApplyTwice` | internal/app_kafka_exposure.go:195-299 | in either mode a second apply changes neither services, stored configuration nor StatefulSet, even when its calls fail; a complete one changes something exactly when the ports were left to the cluster and it held a foreign service before the first apply |
| `KafkaExposure.ForeignServiceIsRewritten` | internal/app_kafka_exposure.go:195-299 | a concrete run: the first apply keeps a service that selects another pod and stores its port, the second one rewrites it |
| `KafkaExposure.PortsAreDistinct` | internal/app_kafka_exposure.go:302-315 | since no two services share a port, the stored ports and the bootstrap entries are pairwise distinct |
| `KafkaExposure.ExternalBootstrapCSV` | internal/app_kafka_exposure.go:302-315 | one host:port entry per port joined by commas, nothing for a blank host |
| `KafkaExposure.PortsCSVAt` | internal/app_kafka_exposure.go:20-44 | cutting the stored list at an ordinal gives that replica's port |
| `KafkaExposure.BrokersMatchBootstrap` | internal/app_kafka_exposure.go:20-44 | from the environment that an apply leaves, every broker announces exactly its entry of the clients' bootstrap list, and nobody does after a withdrawal; the list splits back into its entries exactly when the host has no comma |
| `KafkaExposure.ServiceNameInjective` | internal/app_kafka_exposure.go:46-48 | different replicas have different service names |
| `KafkaExposure.NamesAreSpelled` | internal/app_kafka_exposure.go:46-62 | service and pod names are the trimmed base, -kafka-np or -kafka, and the replica number behind the last dash |
| `KafkaExposure.WrittenReachesBrokers` | internal/app_kafka_exposure.go:67-130 | the service of replica i has the stored port as its only one and selects the pod whose name ends in i |
| `KafkaExposure.BrokersDiffer` | internal/app_kafka_exposure.go:56-62 | different replicas select different pods |
| `KafkaExposure.ListenerIsAdded` | internal/app_kafka_exposure.go:283-292 | port 9094 is there afterwards and the other ports are as before |
| `KafkaExposure.SettingsAre` | internal/app_kafka_exposure.go:202-209 | node port mode is that word in any case, and three replicas are assumed when there is no positive number |
| `AiUsage.UsageStore.RecordCall` | internal/ai_usage.go:79-115 | one call is added to its own cell and no other, Recent keeps the last 200, and the alert looks at the cell's total before and after |
| `AiUsage.CellIsFold` | internal/ai_usage.go:79-115 | after any sequence of calls each cell is the fold over its matching calls, and exists exactly when there is one |
| `AiUsage.FoldCounts` | internal/ai_usage.go:95-102 | a fold counts the calls, their tokens of both kinds, the sum of both, and the failed calls |
| `AiUsage.RecentIsSuffix` | internal/ai_usage.go:66-76 | Recent is the last 200 calls, in order |
| `AiUsage.SumCells` | internal/ai_usage.go:128-169 | whatever order the maps are visited in, totals, by-model and by-feature sums are the folds over the calls since the cutoff, the models and features shown are exactly those of these calls, and both groupings add up to the totals |
| `AiUsage.GroupGrows` | internal/ai_usage.go:139-160 | adding one cell raises the total and its own model's and feature's sums by its fold, and no other |
| `AiUsage.WindowTotals` | internal/ai_usage.go:128-169 | totals, sum over models, sum over features and the fold over the calls since the cutoff are equal |
| `AiUsage.Statistics` | internal/ai_usage.go:118-190 | the 1, 7 and 30 day windows show exactly the calls of their days, and a longer window never shows less, in total, by model and by feature |
| `AiUsage.WindowsAreMonotone` | internal/ai_usage.go:185-187 | a window that starts earlier shows every model and feature of the shorter one with at least its numbers |
| `AiUsage.RecordAndShow` | internal/ai_usage.go:66-190 | from an empty store through any sequence of calls to the page: the alerts raised, the recent calls, every cell and all three windows are functions of the calls alone |
| `AiUsage.AlertOncePerCell` | internal/ai_usage.go:195-211 | under a fixed positive budget each cell alerts once if it reaches the budget and never otherwise |
| `AiUsage.NoBudgetNoAlert` | internal/ai_usage.go:204-207 | without a positive budget there is no alert |
| `AiUsage.AlertsPerDay` | internal/ai_usage.go:193-211 | a day has at most one alert exactly when at most one of its cells reaches the budget, and some alert exactly when one does |
| `AiUsage.DayClaimFails` | internal/ai_usage.go:193-195 | two calls of one day can alert twice, and two others exceed the budget together without an alert |
| `BaotaTargets.PutTargets` | internal/baota_targets.go:198-287 | an empty list changes nothing, a rejected one changes nothing, an accepted one is stored normalised with the top-level URL and key of its default |
| `BaotaTargets.PutNormalises` | internal/baota_targets.go:199-287 | accepted lists have distinct normal-form ids, valid URLs, real keys and exactly one default, and as many rows as were sent |
| `BaotaTargets.PutMeans` | internal/baota_targets.go:199-287 | accepted exactly when every row has a valid id of its own, an http or https URL that parses and a real key; each row is then stored trimmed in its place, and the first marked row, or else the first, is the default |
| `BaotaTargets.KeptKeyIs` | internal/baota_targets.go:205-257 | a blank or masked key is replaced by that of the last stored row with the id, then for a list of one by the top-level key, and otherwise stays |
| `BaotaTargets.PutIsIdempotent` | internal/baota_targets.go:199-287 | saving a normalised list is the identity, whatever is stored |
| `BaotaTargets.MaskedPutRestores` | internal/baota_targets.go:205-257 | saving the stored list with any of its keys blanked or masked restores it exactly |
| `BaotaTargets.ByIdFinds` | internal/baota_targets.go:205-214 | the index of the stored list finds each row under its id |
| `BaotaTargets.ValidIdIsNormal` | internal/baota_targets.go:122-131 | an id in normal form stays as it is |
| `BaotaTargets.NormalIdIs` | internal/baota_targets.go:122-131 | lower case, trimmed, 1 to 63 letters, digits and inner hyphens |
| `BaotaTargets.MergeIntoConfig` | internal/baota_targets.go:133-195 | the merge skips bad and repeated rows, repairs the defaults and takes the main fields from the default entry |
| `BaotaTargets.MergeOneMoreRow` | internal/baota_targets.go:133-160 | a row adds its trimmed entry unless its id is invalid or was met before, or URL or key are missing |
| `BaotaTargets.MergedHasOneDefault` | internal/baota_targets.go:162-176 | exactly one entry is the default: the marked one if exactly one was, otherwise the first; nothing else of the entries changes |
| `BaotaTargets.MergedFollowsDefault` | internal/baota_targets.go:177-195 | URL, key and TLS flag follow the default entry, the flag with its two fallbacks; without entries they stay |
| `BaotaTargets.MergeKeepsSavedList` | internal/baota_targets.go:133-195 | merging a saved list keeps its rows, their order and the default, and the main URL and key are the default's |
| `BaotaTargets.RepairsAgreeIff` | internal/baota_targets.go:162-195 | saving and merging repair the defaults alike exactly when there is at most one or the first row is one |
| `BaotaTargets.EffectiveBaotaTargets` | internal/baota_targets.go:35-61 | the usable entries in order, or the top-level one when there is none |
| `BaotaTargets.EffectiveIs` | internal/baota_targets.go:35-61 | the entries with URL and key when there are any, otherwise the top-level pair under the id default, otherwise none |
| `BaotaTargets.DefaultIdIs` | internal/baota_targets.go:64-75 | the id of the first marked entry, or of the first one |
| `BaotaTargets.DefaultIdIsEffective` | internal/baota_targets.go:64-75 | the default id is that of an effective entry, a marked one if any is marked |
| `BaotaTargets.SelectionNeverMixes` | internal/baota_targets.go:88-120 | URL, key and TLS flag are those of one and the same entry, the first with the requested id when known and with the default id otherwise; with nothing to choose from they stay as they were |
| `AuditQueue.Queue.EnqueueAuditRecord` | internal/audit_queue.go:43-51 | a send that never blocks: the record is appended, or counted as dropped when the queue is full |
| `AuditQueue.Queue.Drain` | internal/audit_queue.go:31-38 | the drain writes everything queued, in order, and empties the queue |
| `AuditQueue.StepKeepsInv` | internal/audit_queue.go:21-51 | every step keeps: written, in flight and queued are the accepted records in order, offers are accepted or dropped, the queue is bounded, drops are logged by the hundred |
| `AuditQueue.ReachableInv` | internal/audit_queue.go:21-51 | so does every interleaving of producers, writer and cancellation |
| `AuditQueue.NothingLostUnlessFull` | internal/audit_queue.go:21-51 | in any run the drops are the moments when a producer met 1024 queued records, and all offered records are written, in flight or queued in order exactly when there was none |
| `AuditQueue.WriterIdlesIff` | internal/audit_queue.go:24-40 | the writer can always go on, unless it has exited or waits for a record that nobody sent |
| `AuditQueue.WriterTakesTheOldest` | internal/audit_queue.go:26-35 | it takes the oldest record and writes what it took |
| `AuditQueue.NoExitWithoutCancel` | internal/audit_queue.go:28-37 | without a cancellation it neither drains nor exits |
| `AuditQueue.ExitHasWrittenAll` | internal/audit_queue.go:31-38 | when the writer exits, everything accepted so far is written, and it was cancelled |
| `AuditQueue.NothingWrittenAfterExit` | internal/audit_queue.go:24-40 | after the exit nothing more is written; later records stay queued |
| `AuditQueue.DrainStep` | internal/audit_queue.go:31-38 | without producers the draining writer can always step, and each of its steps counts down |
| `AuditQueue.DrainTerminates` | internal/audit_queue.go:31-38 | the drain ends after exactly that many steps with everything written |
| `SshGate.FailKeyInjective` | internal/cloud_vm_ssh_security.go:54-56 | callers with bar-free addresses share a counter only if they are the same |
| `SshGate.FailKeyClash` | internal/cloud_vm_ssh_security.go:54-56 | that condition is needed for the key to be injective; client addresses come parsed and meet it |
| `SshGate.CaptchaKeyInjective` | internal/cloud_vm_ssh_security.go:144-146 | captchas of different instances or ids never share a key |
| `SshGate.Gate.IncrFailCount` | internal/cloud_vm_ssh_security.go:76-85 | one counter grows by one and is returned, the others stay |
| `SshGate.Gate.RecordSecurityEvent` | internal/cloud_vm_ssh_security.go:87-97 | the event goes first and the list keeps 200 |
| `SshGate.Gate.IssueCaptcha` | internal/cloud_vm_ssh_security.go:159-175 | a captcha with the sum as its answer is stored for five minutes |
| `SshGate.Gate.ValidateCaptcha` | internal/cloud_vm_ssh_security.go:177-196 | any answered try uses the captcha up, right or wrong, and succeeds only for the right answer before expiry |
| `SshGate.Gate.Authenticate` | internal/app_cloud_vm_ssh.go:154-210 | the whole attempt: captcha when the counter is at its limit, password, dial, then count, clear or leave |
| `SshGate.CounterIsFailures` | internal/cloud_vm_ssh_security.go:58-85 | in any run each caller's counter is its number of failed logins since its last success |
| `SshGate.StoredCaptchasWereIssued` | internal/cloud_vm_ssh_security.go:159-196 | every stored captcha was issued for that instance and id and has not been tried since |
| `SshGate.GatedDialIsUnlocked` | internal/app_cloud_vm_ssh.go:158-164 | every dial at three or more failures gave the number asked for by a captcha issued earlier for the same instance, unexpired and untried |
| `SshGate.AnswerIs` | internal/app_cloud_vm_ssh.go:154-210 | in every run an attempt is refused for its captcha exactly when its caller failed three times since its last success and gives no right answer; otherwise it needs a password, sent or saved, and the SSH server decides |
| `SshGate.ValidIffRight` | internal/cloud_vm_ssh_security.go:177-196 | an answer is right exactly when it is the number asked for by the last captcha issued under its id, at most 300 seconds ago and answered by nobody since |
| `SshGate.OnlyTheNumber` | internal/cloud_vm_ssh_security.go:195 | only the number itself is the right answer |
| `SshGate.CaptchaUnlocksOnce` | internal/cloud_vm_ssh_security.go:177-196 | the captcha that unlocked a dial was tried by no earlier attempt and unlocked no other |
| `SshGate.EventsAreNewest` | internal/cloud_vm_ssh_security.go:87-97 | the event list is the newest 200 failures, newest first |
| `Assistant.Session.ExecuteTool` | internal/ai_assistant.go:545-595 | a call is answered as unknown, refused, deferred or run, and only a successful write is recorded as action and audit |
| `GoStrings.CutBytesKeeps` | internal/ai_assistant.go:579-581 | clipping by bytes keeps the longest prefix of whole characters, and one replacement character for each byte of a character cut in two |
| `Assistant.OpeningMessages` | internal/ai_assistant.go:649-661 | the prompt, the non-blank user and assistant messages of the history in order, and the question |
| `Assistant.OpeningIs` | internal/ai_assistant.go:649-661 | a chat opens with the prompt and its opening ends with the question |
| `Assistant.RememberedAppend` | internal/ai_assistant.go:651-660 | the remembered lines of two histories follow each other |
| `Assistant.RememberedOne` | internal/ai_assistant.go:651-660 | a user or assistant line with some content is remembered as it was, any other is not |
| `Assistant.Session.Chat` | internal/ai_assistant.go:663-699 | the round loop is the conversation function, whose properties follow |
| `Assistant.CallOneKeeps` | internal/ai_assistant.go:545-595 | one call runs exactly what the gate allows, and keeps the gate and the record |
| `Assistant.CallIsTraced` | internal/ai_assistant.go:545-595 | a call is answered under its id and traced with its name, its arguments and whether its tool writes |
| `Assistant.CallIsRefused` | internal/ai_assistant.go:558-571 | an unregistered tool, and a write without both switches, gets its notice, and nothing runs or is recorded |
| `Assistant.CallIsRun` | internal/ai_assistant.go:572-594 | every other call runs the first tool of its name once, passes the result on clipped, and records a write that succeeded |
| `Assistant.RoundIs` | internal/ai_assistant.go:667-684 | a round asks the model once; a failure or an answer without calls ends the chat, calls go on behind the assistant's message |
| `Assistant.CallAllAnswers` | internal/ai_assistant.go:684-699 | k calls are answered by exactly k tool messages with their ids in order, each traced with its content |
| `Assistant.RoundKeeps` | internal/ai_assistant.go:667-699 | a whole round keeps all of these |
| `Assistant.ChatIsSafe` | internal/ai_assistant.go:663-699 | for any model replies: writes run only with operate and confirm, the tools run are exactly the allowed calls in order, actions and audits are exactly the successful writes, every assistant message is followed by its tool answers, the trace matches them one for one, and there are at most 8 model calls |
| `Assistant.ClosedGateChangesNothing` | internal/ai_assistant.go:562-571 | without both switches a chat changes nothing in the world, if read tools do not |
| `Assistant.ReadOnlyRegistryIsGated` | internal/ai_assistant.go:103-403 | the read-only registry does hold write tools, none of which is let through |
| `Assistant.RegistryWrites` | internal/ai_assistant.go:103-403 | the operating registry adds six tools, all writes, to the seventeen of the read-only one, three of them writes |
| `AdminUsers.Users.HandleCreate` | internal/admin_users_handlers.go:137-216 | the first violated rule is reported and nothing changes, or one row with a new id is added |
| `AdminUsers.Users.HandleUpdate` | internal/admin_users_handlers.go:228-357 | the same for an update, with the last-administrator guard in its place among the rules; an accepted edit goes to that row |
| `AdminUsers.Users.HandleDelete` | internal/admin_users_handlers.go:401-450 | the same for a deletion, where the guard comes before the check of the own account |
| `AdminUsers.StepKeepsValid` | internal/mysql_bootstrap.go:59-69 | user names stay unique under the collation |
| `AdminUsers.StepTouchesOneRow` | internal/admin_users_handlers.go:137-450 | every request leaves the other rows alone, and a deletion removes its row |
| `AdminUsers.CreationAcceptedIff` | internal/admin_users_handlers.go:149-213 | accepted exactly when the texts are within bounds and nobody has the name |
| `AdminUsers.CreatedRowIs` | internal/admin_users_handlers.go:149-206 | the new row is enabled and holds the trimmed texts and the hashed password; without a role it is a viewer |
| `AdminUsers.UpdateAcceptedIff` | internal/admin_users_handlers.go:234-348 | accepted exactly when the row exists, the texts are within bounds and somebody can still sign in as an administrator afterwards |
| `AdminUsers.UpdatedRowIs` | internal/admin_users_handlers.go:263-345 | what is mentioned is set, what is not stays, and the name always stays |
| `AdminUsers.DeletionAcceptedIff` | internal/admin_users_handlers.go:401-440 | accepted exactly when the row exists, is not the operator's own, and the guard lets it go |
| `AdminUsers.UpdateGuardIsExact` | internal/admin_users_handlers.go:286-294 | demoting or disabling an administrator is refused exactly when nobody could sign in as one afterwards |
| `AdminUsers.DeleteGuardIsExactExceptForTheFallbackRow` | internal/admin_users_handlers.go:385-432 | a deletion that would leave nobody is refused, and one is refused needlessly exactly when the only administrator bears the fallback account's name |
| `AdminUsers.HarmlessDeletionRefused` | internal/admin_users_handlers.go:385-432 | the lone row called admin is such a case |
| `AdminUsers.ChangesKeepAccess` | internal/admin_users_handlers.go:228-450 | no accepted update or deletion takes away the last way in |
| `AdminUsers.CreationLocksOutIff` | internal/admin_users_handlers.go:137-216 | a creation takes it away exactly when a viewer gets the fallback name while no administrator is enabled |
| `AdminUsers.AccessSurvivesEveryRun` | internal/admin_users_handlers.go:137-450 | over any run of requests without such a creation somebody can sign in as an administrator |
| `AuditStore.ShiftIn` | internal/audit_store.go:347-348 | the ring loses its first line and gains the new one at the end |
| `AuditStore.TailJSONLines` | internal/audit_store.go:333-356 | exactly the last lines of the file in order, at most the limit (200 when it is not positive), or an error when a line is too long |
| `AuditStore.ScanNextLine` | internal/audit_store.go:337-343 | the next line is read without its line break, a carriage return included, unless it has 1048576 bytes or more, where scanning stops |
| `AuditStore.ScanLastLine` | internal/audit_store.go:337-343 | a last line without a newline counts when there is something on it |
| `AuditStore.LogFile.Prune` | internal/audit_store.go:232-296 | an absent, empty or unreadable file stays, otherwise it holds exactly the kept lines, and goes when there are none |
| `AuditStore.KeepIsSubsequence` | internal/audit_store.go:258-275 | the kept lines are trimmed lines of the file, nothing is added |
| `AuditStore.KeptAtIncreases` | internal/audit_store.go:258-275 | they stay in the file's order, none twice |
| `AuditStore.KeptAtIff` | internal/audit_store.go:205-218 | a line is left out exactly when it is blank or a record whose time, by the first layout that parses, is before the cutoff; unparsable lines and times and blank times stay |
| `AuditStore.ScanOfWritten` | internal/audit_store.go:282-287 | what is written is scanned back as the same lines |
| `AuditStore.PrunedReadsBack` | internal/audit_store.go:232-296 | reading the pruned file gives exactly the kept lines of the original |
| `AuditStore.PruneTwice` | internal/audit_store.go:232-296 | pruning at two cutoffs in any order is pruning at the later one; so pruning is idempotent |
| `LoginPolicy.SplitLoginIPTokens` | internal/dashboard_login_policy.go:117-138 | the nested loops give the tokens of the uncommented lines, in order |
| `LoginPolicy.PiecesAppend` | internal/dashboard_login_policy.go:128-135 | a comma, semicolon or space ends a piece, so pieces add up over any of them |
| `LoginPolicy.TokensByLine` | internal/dashboard_login_policy.go:117-138 | the tokens of a text are those of its lines one after the other, whatever white space surrounds it |
| `LoginPolicy.LineTokensAre` | internal/dashboard_login_policy.go:124-136 | a blank line and a comment have no tokens, any other line those of its pieces |
| `LoginPolicy.SeparatorsAre` | internal/dashboard_login_policy.go:128-130 | commas, semicolons and blanks separate, and nothing else does |
| `LoginPolicy.ValidateAllowedLoginIPsText` | internal/dashboard_login_policy.go:141-155 | accepted exactly when every token parses, otherwise the first bad token is named |
| `LoginPolicy.ClientIPMatchesAllowlist` | internal/dashboard_login_policy.go:89-115 | admitted exactly when the address parses and the list is empty or some token denotes it |
| `LoginPolicy.AdmittedAtTheEdges` | internal/dashboard_login_policy.go:89-98 | a client that is no address is refused, and without tokens every address is admitted |
| `LoginPolicy.OneMoreToken` | internal/dashboard_login_policy.go:99-114 | one more token admits the address or the block it stands for, and nothing else |
| `LoginPolicy.AdmittedIff` | internal/dashboard_login_policy.go:89-155 | for a validated text every token is a block, and an address is admitted exactly when there is none or it shares the leading bits of one (RFC 4632, section 3.1) |
| `LoginPolicy.UnionOfBlocks` | internal/dashboard_login_policy.go:99-114 | tokens all parse exactly when each has a block, and a token matches an address exactly when the address begins with the prefix of its block |
| `LoginPolicy.ContainsIsPrefix` | internal/dashboard_login_policy.go:100-108 | comparing 4 or 16 bytes under the mask is comparing the leading bits |
| `LoginPolicy.OnlyTheSetMatters` | internal/dashboard_login_policy.go:99-114 | reordering and repeating tokens does not change admission |
| `LoginPolicy.SplitAgain` | internal/dashboard_login_policy.go:117-138 | splitting the tokens joined by newlines gives them back without those that begin with `#`, so it is the identity exactly when there are none |
| `LoginPolicy.SplitAgainValidated` | internal/dashboard_login_policy.go:117-155 | for a validated text it is the identity |
| `LoginPolicy.CommentTokenIsLost` | internal/dashboard_login_policy.go:117-138 | without validation it need not be |
| `ResponseCache.Writer.Serve` | internal/api_response_cache.go:90-110 | the writer's fields after any handler are those of the capture function |
| `ResponseCache.CaptureIsPrefix` | internal/api_response_cache.go:102-110 | the buffer is a prefix of what was written, and all of it exactly while it is below the limit |
| `ResponseCache.CaptureIsComplete` | internal/api_response_cache.go:90-110 | a buffer below the limit is the whole answer exactly when nothing bypassed the capture |
| `ResponseCache.BypassedTextIsMissing` | internal/api_response_cache.go:90-110 | a concrete answer of which only the second half is captured |
| `ResponseCache.SentStatusIs` | internal/api_response_cache.go:97-110 | the client gets the last code set before the first body byte, whatever comes later |
| `ResponseCache.TimelyStatusIsSent` | internal/api_response_cache.go:97-110 | when header calls come before the body the captured status is the one sent |
| `ResponseCache.LateHeaderIsTaken` | internal/api_response_cache.go:97-110 | a header call after the body is captured as 200 although 500 was sent |
| `ResponseCache.KeyInjective` | internal/api_response_cache.go:44-53 | requests share a key exactly when trimmed role, path and query agree, for a collision-free digest and NUL-free role and path |
| `ResponseCache.LifetimeIsFirstMatch` | internal/api_response_cache.go:56-88 | the rule at the first index whose prefix matches decides, and without one there is no caching |
| `ResponseCache.Middleware.Serve` | internal/api_response_cache.go:113-165 | which requests consult the cache, what a hit answers, and what is stored |
| `ResponseCache.StoredHasSource` | internal/api_response_cache.go:142-163 | every stored body is the capture of an earlier answered request with that key |
| `ResponseCache.HitReplaysSent` | internal/api_response_cache.go:113-165 | without that, the bytes are the same, and the status exactly when the last code set before the body was 200 |
| `ResponseCache.HitReplays` | internal/api_response_cache.go:113-165 | with timely header calls every hit gives the status and bytes that an earlier request for the same role, path and query got, which was JSON sent with 200 and still within its lifetime |
| `ResponseCache.RepeatHitsIff` | internal/api_response_cache.go:113-165 | a repeated request hits exactly when it is an ordinary GET within the lifetime, the first answer said 200 and JSON, was below the limit and is not blank, and Redis answers |
| `ResponseCache.OthersBypass` | internal/api_response_cache.go:115-132 | requests other than GET, with caching refused, or without a lifetime neither hit nor store |
| `ResponseCache.OtherKeysStay` | internal/api_response_cache.go:154-163 | a request changes no other entry |
| `ResponseCache.PrefixEndsInColon` | internal/api_response_cache.go:45-50 | keys carry the configured prefix ended by a colon, or the default one |
| `ResponseCache.SmallAnswersAreKept` | internal/api_response_cache.go:154-163 | every successful JSON answer below the limit is kept whole |

## Left out

- Texts are sequences of Unicode characters: invalid UTF-8 is not modelled, and lengths are counted in bytes only where the code checks limits (`Utf8Length` for user names, passwords, log lines and tool results). A text cut inside a character shows replacement characters, as JSON does.
- Library functions are parameters or small definitions: HMAC, SHA-256, the conversions between text and bytes, JSON, time and URL parsing, `net.ParseIP` and `net.ParseCIDR` (masks are leading ones), the MySQL collation, `strings.EqualFold` and the password hash. `LoginPolicy` assumes only that the address parsers reject `#`.
- Integers are unbounded where the code adds counters (usage totals, ports, failure counts), and the rate limiter's floating point is real arithmetic; decimal parsing has the 64-bit range.
- Clocks are parameters; usage dates are day numbers instead of `YYYY-MM-DD` texts, and time zone changes between recording and reading are not modelled.
- Storage failures of the key-value store and of MySQL (an error answer with nothing changed) and temporary files while the audit file is rewritten.
- Concurrent handlers: each handler is one atomic step, except in the audit queue.
- Kubernetes: the expansion of `$(VAR)` in container arguments, object metadata, conflicts when the StatefulSet is updated, node port ranges other than 30000 to 32767, and the choice of the advertised host, which is a parameter.
- The Kafka listener script is modelled by the port it picks and the address it announces; the list of Kafka ports in the StatefulSet by their numbers.
- The CSV reader accepts any character in a plain field that is not special, a superset of the TEXTDATA of RFC 4180, section 2.
- POSIX shell: only quoting, parameters in double quotes, blanks and words; text outside that subset is an error of the tokenizer.
- The SSH dial with its retries and the recognition of authentication errors by their text are one outcome of the attempt.
- The assistant's streaming events, follow-up suggestions, the replacement reply when the rounds run out, durations, token usage and the masking of secrets in audit details; tool arguments reach a tool as text.
- Filtering audit records for display, pruning the MySQL table, and the loop that prunes daily.
- Response headers other than the final content type, flushing before the body, and the hit and miss counters. The embedded writer of the web framework is not part of this model; a header call after the body, or without a positive code, is taken to have no effect on it.
- Handlers that only bind, validate lengths or fill defaults, the database clients, WebSocket and SFTP streaming, leader election, code driven by regular expressions, and the user interface.
- `RateLimiter.WindowBound`: over real numbers; the rounding of `float64` is not modelled.
- `Tokens.SessionRoundTrip`: like the other two round trips, for texts that survive the conversion to bytes and back, and expiry times in the 64-bit range.
- `KafkaExposure.ApplyKafkaInstanceExposure`: an inferred host is taken to be non-empty and trimmed, as node addresses are.
- `AiUsage.AlertOncePerCell`: the alert log keeps 100 entries and its writing can fail; the model counts the alerts raised.
- `ResponseCache.HitReplays`: for handlers that do not use `WriteString` and set the status before the body, and a digest without collisions.
- `SshGate.CounterIsFailures`: for addresses without `|`, as parsed client addresses are.

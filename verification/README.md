# SentryUSB: a verified model of its hardest parts

SentryUSB runs on a small computer in a car. This project models, in Dafny, the six parts
of it whose correctness is hard to see from the code, and proves what they promise for
every input, every run and every interleaving:

* **ZIP downloads** (`ZipFormat`, `ZipWriter`, `ZipRoundTrip`, `ZipStream`). Archives are
  streamed to a client that may vanish at any block. `ZipFormat` holds an independent,
  strict reader that follows sections 4.3.7, 4.3.9, 4.3.12, 4.3.14 to 4.3.16 and 4.5.3 of
  PKWARE's APPNOTE.TXT: it starts at the end record, resolves every sentinel through a
  ZIP64 value and compares headers, descriptors and checksums. What it recovers is exactly
  what went in, if and only if a condition on names and sizes holds.
* **Charging history** (`ChargePricing`, `ChargeRates`, `ChargeSessions`,
  `ChargeProjection`, `ChargeStore`, `HomeFreeze`, `HomeMove`). The incrementally
  maintained session list always equals a full rebuild, and moving Home after freezing past
  charges under a label reprices nothing but charges newly inside the circle.
* **Away Mode** (`Geofence`, `AccessPoint`, `AwayMode`, `AwayModeInner`). Start, stop and
  health tasks race for the hotspot; timer and geofence watchers come and go. Every action
  is one critical section, and the invariants hold over every interleaving.
* **The BLE daemon** (`JsonChunks`, `BinFrames`, `ResendCache`, `BleAuth`,
  `BleAuthDaemon`, `Readvertise`). Chunking and framing of replies, the resend cache,
  claim, PIN and lockout, and the re-advertising chain, over every run of events.
* **The update installer** (`FileReplace`). Live files are exchanged with backups and
  rolled back in reverse; any operation may fail and the machine may stop anywhere.
* **The update coordinator** (`Versions`, `UpdateCoordinator`, `UpdateRun`). One gated run
  per archive cycle; no live file is touched without everything that must come first.

`Options`, `Text`, `Sequences` and `LittleEndian` are shared helpers.

Where the source computes a value the model is a function; where it changes state step by
step the model is a class whose methods are proved against such functions, or a method with
a loop. Interleavings and failures are state machines over those functions: an invariant is
shown for the first state and kept by every step, and the theorems about "every run" follow.
Things outside the source (time, randomness, CRC-32, HMAC, compression, the local clock,
circle membership, the outcome of each system call) are parameters.

Some promises turned out to need a condition. Each has a failing case beside the exact
condition under which the promise holds: the ZIP round trip (`RoundTripIff`,
`LongNameLost`, `GrownFileLost`), reuse of the PIN that was set (`ClaimedPinOpens`,
`BlankPinLocksOut`), automatic mode against a late manual enable (`LateCommit`,
`RacedEnable`), and flag file and hotspot after a restore (`RestoreAgreesIff`,
`RestoreRadioIff`). Refusals are characterised exactly as well: `FreezeHomeSessions` and
`ReplacesIffCleared` say when a freeze is accepted and when an update is installed.

Run `dafny verify dfyconfig.toml` in this directory.

## Model

| member | source | states |
|---|---|---|
| `ZipRoundTrip.RoundTripIff` | crates/api/src/files.rs:574-842 | for every list of files and every threshold pair up to 0xFFFFFFFF bytes and 0xFFFF entries, the independent reader recovers exactly the names, times and contents if and only if every name has at most 65535 bytes and every file has a stat size at or above the threshold or fewer than 0xFFFFFFFF bytes; the condition mentions only files and thresholds |
| `ZipRoundTrip.TruthfulSurvive` | crates/api/src/files.rs:652-654 | files whose size did not change while they were read, under names that fit, are always recovered, whatever their size |
| `ZipRoundTrip.RoundTrip` | crates/api/src/files.rs:636-842 | the forward half: a stream of faithful entries is read back as exactly those entries, in order |
| `ZipRoundTrip.UnfaithfulLost` | crates/api/src/files.rs:669-669 | the other half: one name or size that does not fit its field makes the reader's result differ |
| `ZipRoundTrip.LongNameLost` | crates/api/src/files.rs:669-669 | a concrete failing archive: a name of 65536 bytes |
| `ZipRoundTrip.GrownFileLost` | crates/api/src/files.rs:652-654 | a concrete failing archive: a file empty at its stat and 4 GiB when read |
| `ZipRoundTrip.PartAt` | crates/api/src/files.rs:656-719 | each retained offset is where that entry's local header starts in the archive, and each central record follows the previous one |
| `ZipRoundTrip.DirectoryReads` | crates/api/src/files.rs:753-800 | from any central record on, the reader sees exactly the remaining entries and ends where the directory ends |
| `ZipWriter.ResolveReads` | crates/api/src/files.rs:756-798 | every 32-bit sentinel in a central record is backed by a ZIP64 value, in the order the format prescribes, and resolves to the true size and offset |
| `ZipWriter.CentralReads` | crates/api/src/files.rs:756-800 | a central record is read back with its name, times, checksum, size and offset |
| `ZipWriter.CentralGarbles` | crates/api/src/files.rs:780-792 | a central record whose name or size does not fit is never read back with both intact |
| `ZipWriter.MemberReads` | crates/api/src/files.rs:636-721 | the reader extracts name, times and contents of an entry from its local header, data and descriptor, all of which agree with its central record |
| `ZipWriter.MarkedAnnouncesStat` | crates/api/src/files.rs:670-679 | the local header of a marked entry announces the stat size in both ZIP64 fields |
| `ZipWriter.TrailerReads` | crates/api/src/files.rs:803-842 | count, size and start of the directory are recovered from the end records, through the ZIP64 ones whenever a field is a sentinel |
| `ZipStreaming.ZipStream.Send` | crates/api/src/files.rs:582-590 | a block is delivered and counted, or the client is gone and nothing changes |
| `ZipStreaming.ZipStream.SendBlocks` | crates/api/src/files.rs:685-697 | the read loop forwards, hashes and counts the same bytes; a lost client leaves a prefix |
| `ZipStreaming.ZipStream.WriteStoredEntry` | crates/api/src/files.rs:636-721 | exactly the entry's bytes are sent and the retained metadata carries the offset they started at; an unopenable file is skipped; success is characterised exactly |
| `ZipStreaming.ZipStream.SendDirectory` | crates/api/src/files.rs:755-800 | the central records of the retained metadata are sent in order |
| `ZipStreaming.ZipStream.WriteCentralDirectory` | crates/api/src/files.rs:753-842 | directory and trailer with the directory's true start, size and count |
| `ZipStreaming.ZipStream.StreamArchive` | crates/api/src/files.rs:574-870 | a completed download is the archive of the readable files, recovered by the reader exactly when every member is faithful; a broken one is a prefix of it and is due to a read error or a lost client |
| `ZipStreaming.MembersOf` | crates/api/src/files.rs:642-645 | exactly the files that can be opened are members, in order |
| `ChargePricing.ComputePlanCost` | crates/api/src/charging.rs:289-331 | the accumulating loop computes the specified integral, unpriced when no interval has a rate |
| `ChargePricing.TwoSamplesCost` | crates/api/src/charging.rs:305-328 | between two power-bearing samples the cost is mean power times hours times the rate at local time halfway |
| `ChargePricing.FirstScheduleWins` | crates/api/src/charging.rs:318-323 | the first schedule that covers the time gives the rate, else the flat rate, else the default |
| `ChargePricing.CoversIff` | crates/api/src/charging.rs:86-115 | a time window is the arc of the day from its start up to its end, a month range the arc of the year with both ends |
| `ChargePricing.SamplePowerIs` | crates/drives/src/charging.rs:154-170 | charger power is the recorded value, refined by volts and amps exactly when these agree to a kilowatt |
| `ChargePricing.PlanCostSplits` | crates/api/src/charging.rs:289-331 | plan cost is additive when a series is split at a power-bearing sample, and priced exactly when a part is |
| `ChargePricing.CostBounds` | crates/api/src/charging.rs:289-331 | with nonnegative power and a rate in [lo, hi] for every interval, the cost `plan_cost` returns lies between lo and hi times the trapezoidal energy; it returns none only when there is no energy either |
| `ChargePricing.FlatCost` | crates/api/src/charging.rs:289-331 | without schedules the returned cost is the flat rate times the trapezoidal energy, whatever the sign of the power |
| `ChargeRates.CollectKeys` | crates/api/src/charging.rs:342-351 | the collected keys are, as a set, the stored tags and at Home every configured spelling of Home |
| `ChargeRates.BestCost` | crates/api/src/charging.rs:352-358 | the fold returns the highest cost among the configured plans, whatever the order of tags and map |
| `ChargeRates.HighestUnique` | crates/api/src/charging.rs:352-358 | that highest cost is determined by the set of plans alone |
| `ChargeRates.ApplyRates` | crates/api/src/charging.rs:335-377 | cost and blended rate are those of the most expensive carried plan, else the default; only cost, rate, currency, tags and the Home mark change |
| `ChargeRates.CostIs` | crates/api/src/charging.rs:342-371 | the cost is the highest among the configured plans of the tags and, at Home, of every spelling of Home; without any, default rate times energy; the rate is cost per energy or the default |
| `ChargeRates.HomeSpellingIff` | crates/api/src/charging.rs:346-348 | a key means Home exactly when it spells the word in any case |
| `ChargeRates.RateShownWithin` | crates/api/src/charging.rs:352-371 | the effective rate shown for a session lies within the rates of the plans it carries and the default |
| `ChargeSessions.GroupSessions` | crates/drives/src/charging.rs:298-308 | the grouping loop computes the specified grouping, splitting where the gap exceeds 30 minutes |
| `ChargeSessions.LastSession` | crates/drives/src/charging.rs:298-308 | the last session is a suffix of the rows opened by a gap over 30 minutes, and the rest is the grouping of the rows before it |
| `ChargeSessions.GroupingIs` | crates/drives/src/charging.rs:298-308 | the grouping holds every row in order, no session has an inner gap over 30 minutes, and adjacent sessions are further apart than that |
| `ChargeSessions.GroupsSplit` | crates/drives/src/charging.rs:298-308 | grouping distributes over any cut at a gap longer than 30 minutes |
| `ChargeSessions.IdsIncrease` | crates/drives/src/charging.rs:298-308 | session ids (first timestamps) strictly increase and come from the rows |
| `ChargeSessions.PriceSession` | crates/api/src/charging.rs:618-666 | a session is listed with its tags, Home mark, derived cost and rate, and any stored manual total on top |
| `ChargeSessions.PricedShows` | crates/api/src/charging.rs:641-649 | a stored manual total wins and shows no rate; else cost and rate of the session's own tags, place and the rates |
| `ChargeProjection.Incremental` | crates/api/src/charging.rs:608-666 | resuming from the stored list at its cut-off and regrouping only the rows from there on gives the full list of all rows |
| `ChargeProjection.SortsInto` | crates/api/src/charging.rs:650-651 | sorting the rebuilt tail together with the kept sessions gives the newest-first list |
| `ChargeProjection.OnlyAppends` | crates/drives/src/schema.rs:816-835 | between two database states with the same rewrite revision, samples were only appended, all above the earlier watermark |
| `ChargeProjection.ChargingRowsAre` | crates/drives/src/charging.rs:247-294 | exactly the rows of actively charging samples are listed |
| `ChargeProjection.PhaseThenRate` | crates/drives/src/charging.rs:214-243 | a recorded phase decides, then a recorded rate, then the power |
| `ChargeProjection.BuildIsSound` | crates/api/src/charging.rs:608-666 | whatever sound projection is stored, a build for a snapshot yields the full regroup and reprice of that snapshot |
| `ChargeStore.StepKeeps` | crates/api/src/charging.rs:618-666 | every append, rewrite, read, save and lost race keeps the stored projection sound and its revision from going backwards |
| `ChargeStore.EveryExecution` | crates/api/src/charging.rs:608-666 | over every interleaving of writers and concurrent builders: each returned list equals a full rebuild of its read snapshot, the stored projection is the full result for its own revision and context, and the stored revision never decreases |
| `ChargeStore.FinishStores` | crates/api/src/charging.rs:655-665 | a finishing builder returns what it built and stores it exactly when it is new, storable and of the current revision |
| `ChargeStore.ReadAnswers` | crates/api/src/charging.rs:623-653 | a read answers for the revision and context it finds, as new unless exactly that was stored |
| `ChargeStore.Database.InsertNewer` | crates/drives/src/schema.rs:821-826 | an append above the watermark bumps the revision only |
| `ChargeStore.Database.Change` | crates/drives/src/schema.rs:821-833 | any other change also bumps the rewrite revision |
| `ChargeStore.Database.ReadList` | crates/api/src/charging.rs:618-666 | the list returned is the full rebuild for the current rows and context, incremental or not, and is reported as changed exactly when the stored one was not current |
| `ChargeStore.Database.PriceFrom` | crates/api/src/charging.rs:640-649 | prices the sessions of the rows from the cut-off on |
| `ChargeStore.Database.Save` | crates/api/src/charging.rs:656-663 | a projection is stored only for the revision that is still current, so the stored revision never goes back |
| `HomeFreeze.PlanCarries` | crates/api/src/charging.rs:437-475 | unless it reports a conflict, the copy plan makes the label price exactly like every configured spelling of Home, and changes no other key |
| `HomeFreeze.CopyPlanIff` | crates/api/src/charging.rs:437-475 | whatever the enumeration order: a conflict exactly when two spellings of Home differ or the label prices while Home does not or differently; a copy exactly of the plan all spellings agree on when the label has none |
| `HomeFreeze.LabelledSame` | crates/api/src/charging.rs:335-377 | a Home session costs the same, at the same blended rate, once it carries the label, whether or not it is still at Home |
| `HomeFreeze.UnlabelledSame` | crates/api/src/charging.rs:335-377 | a session without the label keeps cost and rate |
| `HomeFreeze.FrozenKeepsCost` | crates/api/src/charging.rs:496-558 | after the freeze no session that was at Home or is not newly inside the circle is repriced, whatever the rates, schedules, tags and Home spellings |
| `HomeFreeze.FrozenTags` | crates/api/src/charging.rs:496-521 | exactly the sessions inside the old circle and outside the projected one gain the label |
| `HomeFreeze.CopyKeepsCost` | crates/api/src/charging.rs:190-219 | copying the Home rate to a label no other session uses reprices nothing by itself |
| `HomeMove.ChargeBook.CopyHomeRateTo` | crates/api/src/charging.rs:190-219 | refused exactly on a conflict, a label another session uses, or a failed read or write of the preferences or tags; rates change only to carry the Home rate |
| `HomeMove.ChargeBook.AddChargeTagBulk` | crates/drives/src/db.rs:1727-1750 | exactly the given sessions gain the tag, once, and keep their other tags |
| `HomeMove.ChargeBook.FreezeHomeSessions` | crates/api/src/charging.rs:506-558 | succeeds exactly under a condition on rates, tags, circles and the reads and writes it makes; then exactly the sessions that leave carry the label; a refusal writes no tag; in no case is a cost changed while Home stays |
| `HomeMove.ChargeBook.SetHome` | crates/api/src/keep_accessory.rs:164-239 | freeze first, then move: Home moves exactly when the freeze was accepted and the configuration could be read and written, and then only sessions newly inside the new circle can change cost or rate |
| `Geofence.Debounced` | crates/api/src/away_mode.rs:349-380 | the committed value is that of the most recent run of the required number of adjacent equal definite readings, or the seed; the pending state stays below the threshold and never equals the committed value |
| `Geofence.FoldInPlace` | crates/api/src/away_mode.rs:349-380 | one reading updates pending value and count as specified and decides exactly on confirmation |
| `AccessPoint.RequestKeeps` | crates/api/src/away_mode.rs:740-829 | a new start or stop request keeps the hotspot invariant |
| `AccessPoint.MoveKeeps` | crates/api/src/away_mode.rs:735-829 | so does every step of a start, stop or health task, including being superseded between its currency check and its completion |
| `AccessPoint.UndisturbedStart` | crates/api/src/away_mode.rs:747-761 | a start that is not superseded ends up and on, or down, off and marked for a retry |
| `AccessPoint.SupersededStart` | crates/api/src/away_mode.rs:752-760 | a start superseded while launching takes its hotspot down and changes no phase |
| `AccessPoint.UndisturbedHealth` | crates/api/src/away_mode.rs:775-791 | a health check that finds a fault takes the hotspot down and reports the failure, another changes nothing |
| `AccessPoint.UndisturbedStop` | crates/api/src/away_mode.rs:820-828 | a current stop takes the hotspot down; a task that is no longer current does nothing |
| `AwayMode.EveryExecution` | crates/api/src/away_mode.rs:453-519 | the whole invariant over every interleaving of tasks, watchers, timers and requests after a restore |
| `AwayMode.HotspotSettles` | crates/api/src/away_mode.rs:735-829 | `Starting` implies the current generation's start task is pending; with no task pending the radio is up exactly when the phase is `On`, unless the latest stop failed, or a restore left it alone, and nothing has succeeded since |
| `AwayMode.OneWatcherActs` | crates/api/src/away_mode.rs:932-966 | each epoch goes to at most one watcher, so at most one can still act even if stop notifications are missed; an active timer and an undisturbed automatic mode have theirs |
| `AwayMode.FlagAgrees` | crates/api/src/away_mode.rs:969-1165 | in every run, late enables included: automatic and committed away with a hotspot not off has its flag; automatic and committed home means phase off and no flag whenever no timer is active, and a timer is active there only after a late enable; manual: the flag file exists exactly while the timer is active, except for one that could not be read at boot and is still there |
| `AwayMode.AwayIsServed` | crates/api/src/away_mode.rs:476-498 | in every run without a late enable, committed away means the hotspot is starting or on, or it failed, the flag is gone and a retry is marked |
| `AwayMode.TickActs` | crates/api/src/away_mode.rs:476-498 | a decision for away requests a start and writes the flag, one for home requests a stop and removes it, a due retry with a fresh away reading requests a start, any other tick changes neither |
| `AwayMode.FailureClears` | crates/api/src/away_mode.rs:764-812 | a failure of the current request leaves phase off, a retry mark and no flag, and in manual mode ends the session; any other report removes no flag |
| `AwayMode.LateCommit` | crates/api/src/away_mode.rs:1104-1135 | an enable that commits after the switch to automatic mode breaks the home clause if and only if home is committed at that moment; it never breaks the away clause |
| `AwayMode.LateTimerEnds` | crates/api/src/away_mode.rs:941-952 | the expiry of the late timer restores the home clause |
| `AwayMode.RestoreAgreesIff` | crates/api/src/away_mode.rs:1003-1059 | after a restore to manual mode flag and timer agree exactly when the flag file could be read |
| `AwayMode.RestoreAsks` | crates/api/src/away_mode.rs:969-1059 | when a restore asks for a start, when for a stop, and which mode, timer, decision and flag it leaves |
| `AwayMode.RestoreRadioIff` | crates/api/src/away_mode.rs:969-1031 | a hotspot found up at boot is taken over or down, except in manual mode with a flag file that cannot be read or parsed: exactly then it stays up with nothing pending |
| `AwayMode.FenceFollowsReadings` | crates/api/src/away_mode.rs:453-499 | in every run the committed decision is what the current watcher's readings confirm |
| `AwayMode.SupersededIsHarmless` | crates/api/src/away_mode.rs:735-829 | in every run no step of a superseded task, at any stage, changes mode, flag, timer, fence, epoch, phase or retry mark, and the current request's task waits behind it |
| `AwayMode.RacedEnable` | crates/api/src/away_mode.rs:1086-1135 | a run in which an enable that passed its check commits after the switch to automatic mode and home being committed, leaving flag and start in place |
| `AwayMode.RestoreKeeps` | crates/api/src/away_mode.rs:969-1059 | every restore leads to a state with the invariant |
| `AwayModeInner.Inner.RequestApStart` | crates/api/src/away_mode.rs:740-762 | new generation, phase starting, a start task spawned |
| `AwayModeInner.Inner.RequestApStop` | crates/api/src/away_mode.rs:814-829 | new generation, phase off, a stop task spawned |
| `AwayModeInner.Inner.FinishApStart` | crates/api/src/away_mode.rs:794-812 | only the current generation's report acts; a failure in manual mode ends the session |
| `AwayModeInner.Inner.CompleteApStart` | crates/api/src/away_mode.rs:764-772 | the flag goes only with a failure of the current request |
| `AwayModeInner.Inner.Advance` | crates/api/src/away_mode.rs:740-829 | any step of a spawned task keeps the record valid; only a report of the current request touches more than the hotspot |
| `AwayModeInner.Inner.EnableCheck` | crates/api/src/away_mode.rs:1086-1092 | the first critical section of enabling: refused exactly in automatic mode |
| `AwayModeInner.Inner.AutoEvalTick` | crates/api/src/away_mode.rs:453-499 | keeps the record valid; a superseded watcher changes nothing, otherwise the decision is the debounced one; committing away starts the hotspot under a new generation with its flag, committing home stops it and removes the flag |
| `AwayModeInner.Inner.TimerPoll` | crates/api/src/away_mode.rs:940-963 | keeps the record valid; expiry seen by the acting watcher ends timer, flag and hotspot, an obsolete watcher only returns |
| `AwayModeInner.Inner.EnableCommit` | crates/api/src/away_mode.rs:1104-1135 | keeps the record valid; afterwards a timer runs and the flag is there |
| `AwayModeInner.Inner.Disable` | crates/api/src/away_mode.rs:1143-1164 | keeps the record valid; afterwards no manual timer is active, and ending one takes flag and hotspot with it |
| `AwayModeInner.Inner.SetMode` | crates/api/src/away_mode.rs:1254-1292 | keeps the record valid; no timer, no start under way and no decision afterwards; manual mode begins with flag and hotspot off, automatic mode leaves a running hotspot alone |
| `AwayModeInner.Inner.RestoreFromFile` | crates/api/src/away_mode.rs:969-1059 | leads to a valid record for every kind of flag file, an unreadable one included |
| `JsonChunks.LongestPrefix` | server/ble/sentryusb-ble.py:1684-1691 | the binary search finds the longest fitting prefix, at least one character |
| `JsonChunks.Slices` | server/ble/sentryusb-ble.py:1677-1693 | the loop ends, its slices concatenate to the response, and each is the longest that fits |
| `JsonChunks.StaysAhead` | server/ble/sentryusb-ble.py:1677-1693 | after any number of slices no other fitting split has got further |
| `JsonChunks.FewestChunks` | server/ble/sentryusb-ble.py:1677-1693 | no split into slices that pass the same size test uses fewer chunks |
| `JsonChunks.FrameSize` | server/ble/sentryusb-ble.py:1680-1703 | an emitted chunk exceeds its test size by exactly the extra digits of count and index |
| `JsonChunks.WithinMtu` | server/ble/sentryusb-ble.py:1603-1604 | up to 1000 chunks of slices that passed the test stay within the MTU - 3 payload of Bluetooth Core Vol 3 Part F section 3.4.7.1 |
| `JsonChunks.JsonFrames` | server/ble/sentryusb-ble.py:1671-1703 | the emitted chunks are read back as the slices in order with true count and index, are as few as possible, and stay within the stated size when single characters fit |
| `JsonChunks.EnvelopeReads` | server/ble/sentryusb-ble.py:1695-1702 | a client that parses a chunk message gets chunk count, index and data, escapes and surrogate pairs included, as they went in |
| `BinFrames.PayloadRoundTrip` | server/ble/sentryusb-ble.py:938-951 | decoding an encoded payload gives the status (16 bits) and the raw body; the body never grows |
| `BinFrames.EncodingChosen` | server/ble/sentryusb-ble.py:941-951 | a body is compressed exactly when it is long enough and that makes it smaller |
| `BinFrames.FrameSizes` | server/ble/sentryusb-ble.py:954-966 | every frame fits the maximum when that exceeds the header |
| `BinFrames.FramesIff` | server/ble/sentryusb-ble.py:957-966 | splitting fails exactly past 65535 frames, and uses no more frames than it takes |
| `BinFrames.ReassembleIff` | server/ble/sentryusb-ble.py:954-966 | any received sequence of frames, in any order and with duplicates, reassembles to the payload exactly when every index is among them |
| `BinFrames.ReplyDecodes` | server/ble/sentryusb-ble.py:938-966 | such a sequence decodes to the same status and raw body |
| `ResendCache.EveryRun` | server/ble/sentryusb-ble.py:1707-1743 | in every run at most four ids are cached, each with its latest reply, and no stored reply is replayed more than twice |
| `ResendCache.NewestIsCached` | server/ble/sentryusb-ble.py:1707-1716 | the reply just sent is cached with a full resend budget |
| `ResendCache.ResendIff` | server/ble/sentryusb-ble.py:1729-1743 | in every run a resend request replays the latest reply of its id exactly when it is cached and was replayed fewer than twice |
| `ResendCache.StoreEvicts` | server/ble/sentryusb-ble.py:1707-1716 | a new reply pushes out the oldest id exactly when four others are cached; the rest stay with their budgets |
| `ResendCache.DisconnectForgets` | server/ble/sentryusb-ble.py:1013-1035 | after a disconnect nothing of the old session is sent again |
| `ResendCache.OnAirIsLatest` | server/ble/sentryusb-ble.py:1729-1743 | resends put only frames of the latest reply of that id on the air |
| `ResendCache.ResentReplyDecodes` | server/ble/sentryusb-ble.py:938-966 | in every run any mixture of first-send and resent frames that covers every index decodes to the original status and body |
| `ResendCache.ApiRequestCharacteristic.StoreAndSend` | server/ble/sentryusb-ble.py:1707-1716 | stores, evicts the oldest and sends, keeping the invariant |
| `ResendCache.ApiRequestCharacteristic.Evict` | server/ble/sentryusb-ble.py:1711-1714 | the loop drops exactly the oldest surplus ids |
| `ResendCache.ApiRequestCharacteristic.HandleResend` | server/ble/sentryusb-ble.py:1729-1743 | replays the latest reply of a known id within its budget, else nothing |
| `ResendCache.ApiRequestCharacteristic.ResetSession` | server/ble/sentryusb-ble.py:1013-1035 | a disconnect empties cache and counts |
| `BleAuth.EveryRun` | server/ble/sentryusb-ble.py:328-392 | in every run of writes, queries, disconnects and outside file edits: the authenticated peers are exactly those the log shows as trusted, and the stored failures are the latest ones with only expired ones dropped |
| `BleAuth.AtMostFiveFailures` | server/ble/sentryusb-ble.py:328-369 | across reconnects, prunes, claims and resets a named peer is told "wrong PIN" or "wrong web login" at most five times in any 300-second window |
| `BleAuth.YesMeansTrusted` | server/ble/sentryusb-ble.py:268-385 | `is_authenticated` says yes exactly to named peers that succeeded at set_pin or authenticate after both their last disconnect and the last claim reset, on a claimed device; with a readable config any binding present then matches the current web login |
| `BleAuth.LimitedIff` | server/ble/sentryusb-ble.py:328-338 | a peer is limited exactly when the log shows five wrong answers to it within the last 300 seconds |
| `BleAuth.LockedOutLearnsNothing` | server/ble/sentryusb-ble.py:1438-1486 | a locked-out peer gets no reply that tells whether a PIN or login was right |
| `BleAuth.FingerprintIffSameLogin` | server/ble/sentryusb-ble.py:493-498 | unless the two hashes collide or one is the word "off", the fingerprint survives exactly an unchanged login; turning the login on or off changes it |
| `BleAuth.SuccessfulClaim` | server/ble/sentryusb-ble.py:1452-1513 | a successful set_pin found the device unclaimed, has four to six characters, proved the web login when one is required, stored the PIN and bound it to that login |
| `BleAuth.ClaimIff` | server/ble/sentryusb-ble.py:1452-1513 | in every run set_pin succeeds exactly on an unclaimed device, for a named peer that is not locked out, with four to six characters, a readable config, the web login if any, and writable files; a wrong login is reported exactly when one was given |
| `BleAuth.ClaimIsGuarded` | server/ble/sentryusb-ble.py:1454-1456 | while a PIN file is there set_pin changes nothing but the log |
| `BleAuth.ClaimLasts` | server/ble/sentryusb-ble.py:1452-1486 | while nobody edits the files and no reset happens, the PIN stays the one that was set, whatever any peer sends |
| `BleAuth.AuthenticateIff` | server/ble/sentryusb-ble.py:1468-1482 | authenticate succeeds, refuses or turns away exactly by the PIN that reading the file yields and the lockout the log shows |
| `BleAuth.EnforceIff` | server/ble/sentryusb-ble.py:268-306 | a claim is reset exactly when the config is readable and the binding damaged or made under another login, adopted exactly once when it has none, and left alone otherwise |
| `BleAuth.DropMeans` | server/ble/sentryusb-ble.py:348-369 | a disconnect ends that peer's trust and nobody else's, and changes no lockout |
| `BleAuth.ClaimedPinOpens` | server/ble/sentryusb-ble.py:195-201 | after a claim, authentication succeeds exactly with what reading the file in text mode and stripping it yields, so the PIN that was set works again exactly when it is ASCII, has no carriage return and no white space (as Python sees it) at its ends |
| `BleAuth.BlankPinLocksOut` | server/ble/sentryusb-ble.py:1463-1466 | PINs with a leading blank, a leading U+001C or an inner carriage return are accepted by set_pin and refused by authenticate |
| `BleAuthDaemon.AuthState.EnforceWebAuthBinding` | server/ble/sentryusb-ble.py:268-306 | adoption, reset, exception or nothing, as specified |
| `BleAuthDaemon.AuthState.ResetClaim` | server/ble/sentryusb-ble.py:247-262 | every peer loses its authentication even if the files cannot be removed |
| `BleAuthDaemon.AuthState.IsAuthenticated` | server/ble/sentryusb-ble.py:372-385 | keeps the state valid; a yes means trusted, under a binding that matches the current web login |
| `BleAuthDaemon.AuthState.AuthRateLimited` | server/ble/sentryusb-ble.py:328-338 | limited exactly when the log shows five wrong answers within the window; at most five failures stay on record |
| `BleAuthDaemon.AuthState.RecordAuthFailure` | server/ble/sentryusb-ble.py:341-345 | appends to the failures of a named peer |
| `BleAuthDaemon.AuthState.ClearPeerAuth` | server/ble/sentryusb-ble.py:348-369 | the peer is no longer trusted, and is as locked out as before |
| `BleAuthDaemon.AuthState.SavePin` | server/ble/sentryusb-ble.py:228-244 | binding first, then PIN; what each failure leaves behind |
| `BleAuthDaemon.AuthState.ClaimPi` | server/ble/sentryusb-ble.py:1488-1513 | the claim with its web login check |
| `BleAuthDaemon.AuthState.WriteValue` | server/ble/sentryusb-ble.py:1438-1486 | the whole handler, in the order of its checks, keeps the state valid, leaves an existing PIN alone unless it resets the claim, and tells a locked-out peer nothing |
| `Readvertise.EveryRun` | server/ble/sentryusb-ble.py:1812-1905 | in every run the pending flag holds exactly when one timer or call is outstanding, never two, and the history is a series of whole chains |
| `Readvertise.AttemptsAreClose` | server/ble/sentryusb-ble.py:1835-1905 | at most 80 seconds of timers separate an attempt from what led to it; attempts of a chain are numbered without a gap and keep the backoff |
| `Readvertise.NeverDies` | server/ble/sentryusb-ble.py:1819-1833 | an opened chain has its timer or call outstanding until a registration succeeds |
| `Readvertise.NoOverlap` | server/ble/sentryusb-ble.py:1835-1905 | re-registration attempts never overlap |
| `Readvertise.BackoffValues` | server/ble/sentryusb-ble.py:1886-1899 | the waits are 2, 4, 8 and then 10 seconds, and a minute from the ninth refusal on |
| `Readvertise.PokeOpens` | server/ble/sentryusb-ble.py:1819-1833 | a poke opens a chain exactly when none is pending, with its own delay |
| `Readvertise.FireIff` | server/ble/sentryusb-ble.py:1844-1851 | a timer attempts a registration unless a connect is in flight and it was deferred fewer than twenty times; a deferral costs a second and no retry |
| `Readvertise.AnswerIff` | server/ble/sentryusb-ble.py:1853-1899 | an answer ends the chain exactly when the advertisement is up, else the next attempt is scheduled |
| `Readvertise.Advertisement.EnsureRegistered` | server/ble/sentryusb-ble.py:1819-1833 | opens a chain unless one is pending |
| `Readvertise.Advertisement.Reregister` | server/ble/sentryusb-ble.py:1835-1905 | defers at most twenty times without consuming a retry, else attempts |
| `Readvertise.Advertisement.OnReply` | server/ble/sentryusb-ble.py:1853-1899 | success and "already exists" end the chain, a refusal schedules the next attempt |
| `FileReplace.Forward` | crates/api/src/auto_update_install.rs:229-250 | a completed rename moves the disk from one recoverable prefix of the plan to the next |
| `FileReplace.Backward` | crates/api/src/auto_update_install.rs:253-261 | undoing the last replacement moves it exactly one prefix back |
| `FileReplace.UndoOne` | crates/api/src/auto_update_install.rs:253-261 | a successful undo after failed ones gives its destination back what that replacement overwrote and harms nothing |
| `FileReplace.RecoverableUnharmed` | crates/api/src/auto_update_install.rs:229-250 | a visible prefix of the plan means every destination is whole and every original in place or saved |
| `FileReplace.FinalContent` | crates/api/src/auto_update_install.rs:229-250 | a destination ends with the staged content of its last replacement |
| `FileReplace.Disk.ReplaceOne` | crates/api/src/auto_update_install.rs:229-250 | back up, rename, flush: every state on the way is recoverable, whichever operation fails |
| `FileReplace.Disk.RollBack` | crates/api/src/auto_update_install.rs:252-262 | every undo is attempted and fails only through a fault; whatever fails, every state is unharmed, a destination whose first replacement was undone or never made has its original back, and until an undo fails every state is a prefix of the plan |
| `FileReplace.Disk.ReplaceFiles` | crates/api/src/auto_update_install.rs:226-263 | on success destinations carry their last staged content; it fails only through a fault or a missing source, and an undo only through a further fault, so after a single fault all destinations, repeated ones included, have their original content or absence again; at every moment, also when undos fail, each destination is wholly old or wholly new, no original is lost and other paths are untouched; until an undo fails exactly a prefix of the plan is visible |
| `Versions.VersionIff` | crates/api/src/auto_update.rs:363-372 | text is a version exactly when, trimmed and after at most one `v`, it is three dotted decimal numbers that fit 64 bits |
| `Versions.ParseVersion` | crates/api/src/auto_update.rs:363-372 | the loop over the parts computes that version |
| `Versions.PartReads` | crates/api/src/auto_update.rs:367-370 | a decimal number, with any zeros in front, is read as itself when it fits 64 bits |
| `Versions.NewerIsStrictOrder` | crates/api/src/auto_update.rs:374-380 | being newer is a strict order, total on different versions |
| `Versions.NewerIff` | crates/api/src/auto_update.rs:374-380 | newer means neither draft nor prerelease and the first number that differs is greater |
| `UpdateCoordinator.EveryHistory` | crates/api/src/auto_update.rs:170-269 | over every history of runs, failures at any await, machine stops and outside repairs: a file replacement is directly preceded by keep-awake stop, Sentry, gear and archive checks in that order, the cycle lock and validity under it, the saved plan and the saved `installing` receipt; in that run the cycle was claimed and the target found strictly newer than the version the last attempt established; and no cycle is claimed twice |
| `UpdateCoordinator.CoordinatedKeeps` | crates/api/src/auto_update.rs:170-251 | one run keeps that |
| `UpdateCoordinator.ReplacesIffCleared` | crates/api/src/auto_update.rs:170-222 | a run starts replacing files exactly when every check, query and save before succeeds and no earlier attempt awaits recovery |
| `UpdateCoordinator.OutcomeRecorded` | crates/api/src/auto_update.rs:220-248 | a run that started replacing files leaves a receipt for its target: awaiting the reboot if the machine went down; otherwise, also when a requested reboot never came, failed once that can be written, and until then one that blocks the next run |
| `UpdateCoordinator.ReceiptIff` | crates/api/src/auto_update.rs:174-251 | no usable release is recorded as a failure, nothing newer leaves the receipt alone, a chosen target without a reboot ends failed, and a cycle's marker is set exactly by the run that claims it |
| `UpdateCoordinator.ValidIdStays` | crates/api/src/auto_update.rs:262-264 | a valid id cannot lead a marker out of its directory |
| `UpdateCoordinator.ApproachTrace` | crates/api/src/auto_update.rs:183-220 | what the log holds when the first live file is about to be touched, and that nothing was replaced before |
| `UpdateCoordinator.FailedTargetStaysNewer` | crates/api/src/auto_update.rs:253-260 | a failed target can be retried although the version file already names it |
| `UpdateRun.Coordinator.ClaimCycle` | crates/api/src/auto_update.rs:262-269 | true once per id, an error for an invalid id |
| `UpdateRun.Coordinator.FinalSentryCheck` | crates/api/src/auto_update.rs:51-57 | passes exactly when not applicable or the answer is "Off" |
| `UpdateRun.Coordinator.FinalDriveCheck` | crates/api/src/auto_update.rs:36-42 | passes exactly when not paired or the answer is "P" |
| `UpdateRun.Coordinator.FinalInstallGate` | crates/api/src/auto_update.rs:59-73 | stop, Sentry, gear, archive, ending at the first failure |
| `UpdateRun.Coordinator.SaveReceipt` | crates/api/src/update_attempt.rs:104-122 | never replaces an unreadable receipt; a late failure may leave the new one |
| `UpdateRun.Coordinator.Commit` | crates/api/src/auto_update_install.rs:207-218 | plan, hash and `installing` receipt before the replacement |
| `UpdateRun.Coordinator.Coordinate` | crates/api/src/auto_update.rs:170-251 | the whole run keeps the invariant and does what the run model says |

## Left out

- HTTP routing, JSON parsing and shaping of requests and settings, the web UI: plumbing.
- `dos_datetime`, `walk_dir`, path checks and name normalisation in `files.rs`: easy members; times and names are inputs here.
- CRC-32, SHA-256, HMAC and zlib are parameters; only invertibility of compression and, for one lemma, that two given hashes do not collide is used. Comparing SHA-256 digests is modelled as comparing the texts.
- Money, energy, rates and monotonic time are reals: floating-point rounding is not modelled. Timestamps and counters are unbounded, so 64-bit saturation is not modelled.
- Haversine distance, the representative fix of a session and the local clock are parameters of the charging model; a move uses one already normalized circle.
- ChargeStore.Database.InsertNewer: samples are taken to be at or after the epoch, because the resume cut-off clamps at zero.
- Summaries hold the fields that pricing reads or writes; averages, state of charge and display fields are not part of them.
- Concurrent edits of tags or rates between the steps of one freeze: the source itself names that race; one freeze is one run here.
- The second rate-map enumeration order inside one freeze is taken to be the same as the first.
- Away Mode: flag-file and configuration writes succeed; at boot the hotspot is up only with an owner mark or a flag file; a failed hotspot stop is recorded and excuses the radio claim until a stop or start succeeds; the radio service does not exit by itself between health checks; a watcher is spawned together with its epoch; only the effect of a timer's expiry is kept, not its remaining seconds.
- BLE: advertising properties, GATT registration, the write reassembly buffers and notification timing. The authentication handlers start from a parsed message; file edits from outside happen between handlers. A restart of the daemon forgets the lockout; a run is one process.
- The credential cache is taken to reflect the config file.
- BinFrames.ReassembleIff: models a client that keeps slices by index; the phone app is not part of the repository.
- ResendCache.EveryRun: a late worker may store a reply after a disconnect reset, which the model allows, so nothing is claimed about earlier sessions' replies.
- Readvertise.EveryRun: the initial registration call at startup is outside the chain it may open; no exception inside `_reregister`; timers fire, and BlueZ answers every call, but when is open.
- FileReplace.Disk.ReplaceFiles: backup names are distinct and apart from sources and destinations; a failing probe of a destination other than absence, and directories, are not modelled.
- UpdateCoordinator: downloads, extraction, staging and ELF checks are one outcome; cleanup, notifications and delivery are left out. Failures after the replacement are not rolled back by the source, and nothing is claimed about files then. Claim markers live as long as `/tmp`, together with the cycle they name.

# xlrbridge, verified model

xlrbridge routes one input channel of an audio interface, times a gain, into the two channels of the
virtual device BlackHole. This project models its four hard parts in Dafny and proves what they are
relied on for.

* **Routing** (`Buffers`, `Callback`, `Matrix`, `Routing`). The realtime callback of `src/engine.c` works
  on real arrays: it locates three channels in arbitrary buffer lists, caches the locations, silences
  every output and copies one strided lane into two others. `Callback` proves the loops against a value
  function; `Matrix` proves that this function is, for every layout, a plain copy of one row of a
  channel-by-frame matrix into two rows of a silent one, also over whole runs with the cache; `Routing`
  composes it with the offsets of `src/aggregate.c` into the end-to-end statement about devices.
* **Configuration** (`CStrings`, `Numbers`, `Json`, `FlatObject`, `Config`, `RoundTrip`). The escaper and
  the pointer-walking value finder of `src/config.c` work on NUL-terminated char arrays of fixed size. On
  any flat object `json_find_value` is proved equal to a total lookup in which a string value that forms
  the quoted key *captures* the search and yields the value of the member behind it. From that follows
  what load returns after save for every configuration the struct can hold, and exactly when that is the
  configuration that was saved.
* **Lifecycle** (`Aggregate`, `Engine`, `Lifecycle`). Device lookup, offset computation, create and destroy
  over a device table whose calls may fail, and `xb_engine_run` as a step relation in which the main
  thread, the callback (one shared access a step), signals, hot-plugging, kills and restarts interleave.
* **Commands** (`Commands`, `Pipeline`). `setup`, `gain` and `run` of `src/main.c`, and the pipeline from a
  setup that accepts to the samples a later `run` routes.

`dafny verify dfyconfig.toml` checks everything.

## Conventions

* One `char` is one byte; `string` values never contain the terminating NUL.
* Samples and the callback's linear gain are `real`; the gain in dB that the configuration and the commands
  handle is a C double with its infinities and NaN (`Numbers.Double`). `%g` and `strtod` are function
  parameters of which only the shape of the printed token is assumed (`Config.ValidFormat`: a bare token of
  at most 24 characters); the linear factor is a parameter as well.
* Unsigned 32-bit sums wrap (`Numbers.Add32`) and casts to `int` are written out (`Numbers.ToInt32`). The
  callback is modelled on buffers of fewer than 2^29 channels, the limit up to which its product
  `stride * sizeof(float)` is defined in C, and on lists of fewer than 2^31 buffers and channels, the limit of
  its `int` indices.
* Buffers may share storage. The outputs are silenced before the source is read, so an input in an output's
  storage is read as zeros (`Callback.InputSeen`); a write into one output is seen by every output with the
  same storage (`Callback.PutShared`). `Matrix` and `Routing` speak of outputs with storage of their own.
* A buffer's array holds the whole samples of its storage; the one to three bytes a size that is not a
  multiple of four leaves over are not samples.
* HAL answers, file errors and enumeration failures are parameters or step choices.
* HAL contract assumed by `Lifecycle`: callbacks do not overlap; only a started callback installed on an
  existing device is invoked; a *successful* stop or removal returns after a running callback has
  finished; ids of new devices are new. Nothing is assumed of calls that fail.

## Where code and documentation differ

* `src/engine.h:41-42` says the aggregate is always destroyed before return. The status of the destroy call is
  ignored, so it is gone exactly when that call succeeded (`Lifecycle.TeardownIsComplete`,
  `Lifecycle.FailedDestroyLeaks`).
* `src/aggregate.h:60-61` says runs do not accumulate aggregates. A failing enumeration reads as "none there",
  and then they do: `Aggregate.MissedLookupDuplicates` for one create, `Lifecycle.MissedLookupAccumulates` for
  two runs. `Aggregate.CreateKeepsAtMostOne` gives the exact condition for one create. Over whole histories
  they do not accumulate as long as no lookup misses a leftover one and no destroying of a leftover one fails,
  even if a run failed to destroy its own (`Lifecycle.SingleAggregate`).
* `src/engine.c:268-270` speaks of the interface's channels but compares with the aggregate's total: a channel
  that passes may be another sub-device's (`Engine.AcceptsForeignChannel`); it is the interface's exactly
  when it is below the interface's own count (`Engine.AcceptedSourceIsInterfaces`).
* `src/engine.h:16-17` has the layout resolved before start; the code does it in the first callback
  (`src/engine.c:114-133`), and so does the model.
* `src/aggregate.c:15-17` announces a check of the running totals against the aggregate's own layout; the code
  has none, and neither has the model.
* `src/config.c:16-19` promises tolerance for the flat shape in any order. A string value that is, or ends in a
  quote followed by, a key that stands behind it or nowhere redirects that key to the value of the next member
  (`RoundTrip.RoundTripFails`). Load is the defaults overlaid with the keys present exactly when no such
  redirection changes a field (`RoundTrip.LoadOverlaysDefaults`). Keys behind the first 8191 bytes are not
  seen (`RoundTrip.FarKeysAreIgnored`).
* `src/main.c:910-911` says `gain` accepts only a sane value. The comparisons are false for NaN, so `gain nan`
  succeeds and saves it (`Commands.GainAcceptsNaN`); nothing else outside -60 to 24 dB is accepted
  (`Commands.GainCommandSucceeds`).
* `src/main.c:960` says `gain` preserves every other field. It can replace the BlackHole UID
  (`Commands.GainReplacesBlackhole`) and can report success without effect (`Commands.GainCommandIsLost`); the
  exact conditions are in `Commands.GainPreservesExactly`. On a file that `save` wrote the other fields are
  always preserved (`Commands.GainPreservesWritten`).

## Model

| member | source | states |
|---|---|---|
| Buffers.LocateChannel | src/engine.c:61-76 | for every list and index the loop returns the 32-bit walk: unsigned running base, results cast to int |
| Buffers.WalkExact | src/engine.c:61-76 | an index at or above the channel total is never found; one below it is found at its true buffer, stride and lane exactly if the sums up to that buffer stay below 2^32 and the results fit int |
| Buffers.LocateSound | src/engine.c:59-76 | not found exactly at or above the channel total; otherwise channels before the buffer plus lane is the index and lane is below stride |
| Buffers.LocateComplete | src/engine.c:59-76 | every lane of every buffer is the location of one channel index |
| Buffers.LocateInjective | src/engine.c:59-76 | distinct channels never share buffer and lane, zero-channel buffers included |
| Callback.Memset | src/engine.c:124-129 | a buffer's storage becomes all zeros |
| Callback.SilenceOutputs | src/engine.c:151-156 | every non-NULL output buffer is zeroed, whatever it held |
| Callback.FrameCount | src/engine.c:175-180 | the count is the greatest whose frames of stride times four bytes fit the byte size, and the whole frames of the sample array |
| Callback.FrameLimit | src/engine.c:175-184 | the loop bound is the least frame count of the three buffers |
| Callback.Store | src/engine.c:193-194 | a strided write is in bounds and changes one sample, in the buffer and in every output that has the same storage |
| Callback.CopyFrames | src/engine.c:191-195 | the loop leaves the outputs in the specified state whichever of them share storage, a source that shares it included as long as it is silent |
| Callback.CopyOutputs | src/engine.c:158-195 | on silenced outputs: copy the least frame count, or nothing if one of the three data pointers is NULL |
| Callback.MixOutputs | src/engine.c:145-195 | silence, then copy unless one of the three data pointers is NULL; inputs that share output storage are read as zeros, outputs may share storage |
| Callback.SilenceInputs | src/engine.c:151-156 | what silencing the outputs does to inputs that share their storage |
| Callback.SeparateInputIsSeen | src/engine.c:158-162 | inputs with storage of their own are read as they are |
| Callback.SilentSourceIsSilence | src/engine.c:145-195 | a source buffer that reads as zeros makes the callback output silence |
| Callback.IoprocCtx.ResolveOnce | src/engine.c:114-133 | flags and locations after the resolve step, for any two lists: the 32-bit walk |
| Callback.ResolveWalkIsResolve | src/engine.c:114-133 | on lists of fewer than 2^31 buffers and channels the walk resolves the true locations |
| Callback.ResolveExact | src/engine.c:114-133 | resolving afresh fails exactly if one of the three channels is not in its list |
| Callback.NullListIsIgnored | src/engine.c:110-112 | a callback that lacks a list changes neither cache nor outputs |
| Callback.IoprocCtx.Ioproc | src/engine.c:100-197 | whole new cache and whole new output contents of one callback, only output storage written, all indices in bounds; given that the lists are valid (sizes as declared, fewer than 2^29 channels a buffer, fewer than 2^31 in all) and the cached buffers exist; any buffers may share storage |
| Callback.DistinctOutputs | src/engine.c:145-196 | where no two outputs share storage the callback leaves the simple output state of `OutputAfter` |
| Callback.OutputsHoldOnlySource | src/engine.c:145-156 | whatever shares storage, every output sample is silence or a sample of the located source lane times the gain: nothing stale and no other input lane leaks |
| Callback.ResolveValid | src/engine.c:114-133 | a cache that resolved without failing holds three real locations reachable in the lists it was resolved from |
| Matrix.FlattenLocated | src/engine.c:4-23 | the located lane is the row of that channel in the flattened list |
| Matrix.PutLane | src/engine.c:191-195 | a strided write changes one position of one lane and no other lane |
| Matrix.CopiedLane | src/engine.c:191-195 | after n rounds the two destination lanes hold source times gain on n frames, every other lane is as before |
| Matrix.LaneExact | src/engine.c:175-195 | a lane holds every stride-th sample from its index on, up to the last whole frame |
| Matrix.CallbackIsMatrixCopy | src/engine.c:145-196 | one callback on any layout of outputs with storage of their own, NULL data and unresolvable channels included, is the row copy on the flattened matrices |
| Matrix.CallbackSample | src/engine.c:186-195 | sample by sample: where source and both destinations have the frame the destinations hold source sample times gain, every other output sample is 0 |
| Matrix.CallbackSilencesTails | src/engine.c:145-156 | samples behind the last whole frame are zero as well |
| Matrix.LayoutIndependence | src/engine.c:6-10 | lists that flatten to the same matrices give outputs that flatten to the same matrix |
| Matrix.CachingIsSound | src/engine.c:18-22 | with stable channel counts every callback of a run finds its cache usable and equals fresh resolution and the matrix copy |
| Matrix.FailureIsSilence | src/engine.c:119-143 | a failed resolution means silence in that and every later callback, whatever layouts follow |
| Aggregate.ResolveDeviceByUid | src/audio_devices.c:175-196 | id of the first device with the UID, unknown for an empty UID or a failed enumeration |
| Aggregate.ResolvedExact | src/audio_devices.c:175-196 | that id by quantifiers over the enumerated devices, and 0 in the other cases |
| Aggregate.ChannelCount | src/aggregate.c:54-80 | the channel total of any stream configuration modulo 2^32, 0 when the HAL does not give one |
| Aggregate.AggregateInfo.ComputeOffsets | src/aggregate.c:170-234 | looks each listed UID up and counts its channels; success exactly if the list can be read, every UID converts and both occur; captured fields are the 32-bit sums listed before the last entry with the UID, also on failure |
| Aggregate.SubDevicesExact | src/aggregate.c:205-217 | the list entries: UIDs in order, each with the input and output channel counts the enumeration reports of the device it resolves to, 0 if it resolves to none |
| Aggregate.CapturedExact | src/aggregate.c:219-230 | the captured fields for any list: sums before the last entry with the UID modulo 2^32, old values where no entry has it |
| Aggregate.OffsetsFoundExact | src/aggregate.c:205-234 | success if and only if every UID converts and both wanted UIDs are listed |
| Aggregate.OffsetsArePrefixSums | src/aggregate.c:6-10 | with distinct UIDs and totals in range the captured offsets are the true prefix sums |
| Aggregate.RangesCover | src/aggregate.c:6-10 | every input channel below the running total belongs to some sub-device |
| Aggregate.RangesDisjoint | src/aggregate.c:6-10 | and to no second one |
| Aggregate.OutputRangesCover | src/aggregate.c:6-10 | every output channel below the running total belongs to some sub-device |
| Aggregate.OutputRangesDisjoint | src/aggregate.c:6-10 | and to no second one |
| Aggregate.Hal.AggregateDestroy | src/aggregate.c:238-243 | no-op on the unknown id; otherwise the HAL's status is returned and exactly the device is removed if that is success |
| Aggregate.Hal.AggregateCreate | src/aggregate.c:245-303 | new device table, exact status and result fields for every combination of HAL answers |
| Aggregate.CreateStatusExact | src/aggregate.c:245-303 | status 0, the HAL's own or the unspecified error, each by exact conditions on the answers |
| Aggregate.CreateTableExact | src/aggregate.c:258-303 | exactly which devices exist after a create |
| Aggregate.CreateKeepsAtMostOne | src/aggregate.h:60-62 | at most one aggregate stays exactly if there was none, or the leftover was seen and destroyed, or nothing new stays; a failed create with working destroy leaves none |
| Aggregate.MissedLookupDuplicates | src/aggregate.h:60-62 | a table and HAL answers for which a successful create leaves two aggregates although no destroy call fails |
| Engine.WaitForDevices | src/engine.c:203-229 | looks both devices up at every poll; ends at the first poll that ends it, 500 ms counted per sleep, at most 2*timeout+1 polls, ready only on one poll with both lookups, gives up only after the full timeout |
| Engine.ReadyExact | src/engine.c:211-215 | a poll is ready exactly if both UIDs are not empty and both enumerations show a known device with them |
| Engine.WaitEndsExactly | src/engine.c:203-229 | without stop and devices the wait gives up at poll 2*timeout, 16 without a timeout; a stop or both devices before that end it there |
| Lifecycle.WaitStepsRefine | src/engine.c:203-229 | as long as no poll ends the wait, k main steps from the start of a run stand at the k-th poll with its counted time |
| Lifecycle.WaitEndRefines | src/engine.c:203-229 | the step at the poll that ends the wait goes on exactly if the wait returns 0 |
| Engine.AcceptedSourceIsInterfaces | src/engine.c:268-279 | an accepted source index is the interface's if and only if the channel is below its own input count, wrap-around included |
| Engine.ChecksExact | src/engine.c:268-295 | the two checks accept exactly the requests whose source index is below the input total and whose two destinations are both BlackHole's own |
| Engine.AcceptsForeignChannel | src/engine.c:268-279 | a concrete accepted channel that is BlackHole's own input |
| Routing.RouteIsExact | src/engine.c:271-295 | a channel of the interface passes both checks and the context's indices are exact sums without wrap-around |
| Routing.EndToEndRouting | src/aggregate.c:167-234 | for any number and order of sub-devices and any split into buffers, the interface channel is read and exactly BlackHole's channels 0 and 1 are written |
| Routing.EveryCallbackRoutes | src/engine.c:100-197 | the same for every callback of a whole run with cached locations and stable channel counts |
| Routing.EveryCallbackSample | src/engine.c:100-197 | sample by sample, for every callback of a run: BlackHole's channels 0 and 1 hold interface sample times gain over the frames all three have, every other sample of every device is 0 |
| Lifecycle.FinishIsResolve | src/engine.c:114-143 | the stepwise callback run alone leaves the cache one call leaves |
| Lifecycle.InvokedCallbackReturns | src/engine.c:100-143 | whenever an installed and started callback is idle the HAL may invoke it with any lists; run alone it returns with the cache one call leaves, everything else as it was |
| Lifecycle.AnythingMayHappen | src/engine.c:233-350 | at any moment of any run every HAL call may fail, a signal come, the process be killed, another run follow an ended one, and foreign devices come and go |
| Lifecycle.CreateStepsRefine | src/aggregate.c:258-303 | the create steps change the device table as the create method does |
| Lifecycle.RunKeepsInv | src/engine.c:233-350 | the invariant holds after any interleaving of steps, over any number of runs |
| Lifecycle.TeardownIsComplete | src/engine.c:341-349 | on return the aggregate is gone iff its destroy did not fail, the callback removed iff that did not fail, result 0 only after a signal |
| Lifecycle.CallbackHasDevice | src/engine.c:341-344 | no callback is running without its device unless stop and removal both failed |
| Lifecycle.CallbackOutlivesDevice | src/engine.c:341-344 | a run in which both failed: it returns while the callback runs and its device is gone |
| Lifecycle.InterleavingIsSafe | src/engine.c:114-134 | resolved without failed means the three valid locations of the first layout; the failure exit only if that layout lacked a channel |
| Lifecycle.FlagsOnlyRise | src/engine.c:87-94 | resolved, resolve_failed and the stop flag never fall within a run |
| Lifecycle.SingleAggregate | src/aggregate.c:258-263 | at most one aggregate at every moment of any number of runs, kills and failed teardown destroys included, unless a lookup missed a leftover one or destroying a leftover one failed; none after a run that looked for one and whose own destroy did not fail |
| Lifecycle.ClearingIsExact | src/aggregate.c:258-263 | the look for a leftover aggregate ends without such a failure exactly if none is left when the new one is created |
| Lifecycle.CreatingIsExact | src/aggregate.c:265-275 | a successful create keeps at most one aggregate exactly if none existed |
| Lifecycle.ResultIsExact | src/engine.c:233-350 | result 1 exactly: out of the main loop by the failure exit, always when setup failed after the wait, and out of the wait without a signal |
| Lifecycle.AcceptedStarts | src/engine.c:268-325 | a description that passes the range checks, for any channel, and two succeeding HAL calls lead to the main loop with the callback installed and started on its route |
| Lifecycle.ReadyRunLoops | src/engine.c:233-328 | from the start: a ready poll and succeeding HAL calls lead there for every channel that passes, the leftover aggregate gone and the new one present |
| Lifecycle.SetupGoesOn | src/engine.c:255-325 | each set-up step goes on exactly if its HAL call or range check does not fail; a failing one leads to the teardown or the return with 1 |
| Lifecycle.SetupFailureHasCause | src/engine.c:255-325 | in any interleaving a run that returns after the wait without having looped had a failing HAL call or range check |
| Lifecycle.AcceptedMissesNothing | src/engine.c:268-295 | a request that passes the range checks misses no channel in a layout with the totals of the sub-device list |
| Lifecycle.MatchingLayoutNeverFails | src/engine.c:114-143 | in no interleaving does a run whose first layout has those totals fail to resolve or take the failure exit; once looping it returns 0 |
| Lifecycle.FailedDestroyLeaks | src/aggregate.c:294-300 | a concrete run that returns with its aggregate still there |
| Lifecycle.MissedLookupAccumulates | src/aggregate.c:258-263 | two runs of which the second misses what the first left: two aggregates exist |
| Lifecycle.ReturnsAfterSignal | src/engine.c:329-349 | once the stop flag is set the run returns within twelve steps of the main thread, whatever the HAL answers and whatever else interleaves |
| Lifecycle.ReturnsAfterFailure | src/engine.c:329-349 | once the callback has failed to resolve the run returns within five steps of the main thread |
| Lifecycle.MainIsNeverStuck | src/engine.c:233-350 | until it returns the main thread has a step it can take |
| Json.JsonEscape | src/config.c:204-213 | output is the escape of the greedy prefix, whole pairs only, terminated inside the buffer |
| Json.EscapeNeverTruncates | src/config.c:204-213 | nothing is lost when twice the length is below the buffer size |
| Json.JsonFindValue | src/config.c:100-154 | found flag, string flag and terminated, truncated output agree with the value specification for every buffer and key; `out` untouched if not found |
| Json.CopyString | src/config.c:124-140 | the quoted branch yields the unescaped contents up to the closing quote |
| Json.CopyBare | src/config.c:143-153 | the bare branch yields the token up to a delimiter |
| Json.EscapeScanInverse | src/config.c:124-141 | scanning an escaped string and its closing quote yields the string and stops at that quote, whatever follows |
| Json.ScanPieces | src/config.c:124-140 | any string body, hand-written escapes included: every backslash pair stands for its second character, a backslash that ends the text for itself |
| Json.ScanBareExact | src/config.c:143-150 | a bare value is what stands before the first comma, brace or blank |
| Json.ReadValueExact | src/config.c:110-153 | behind any text up to the first colon and any blank space, a quoted body or a bare value is read |
| Json.ReadValueWithoutColon | src/config.c:110-116 | nothing is found if no colon follows |
| Json.FindValueSearches | src/config.c:102-109 | the quoted key is searched, cut to the 279 characters the needle buffer holds |
| Json.SkipStringValue | src/config.c:102-109 | nothing inside a printed string value can match a needle; only its end can, exactly if the value forms it |
| CStrings.StrStrIsLeast | src/config.c:105-109 | the search finds the least occurrence and misses none |
| FlatObject.FindValueIsLookup | src/config.c:100-154 | on every flat object, any order and blank space, json_find_value is the total lookup, captures included |
| FlatObject.DictionaryIsFirst | src/config.c:14-19 | what the keys of a flat object mean: the value of the first member with the key, absent otherwise |
| FlatObject.LookupExact | src/config.c:14-19 | on any flat object the lookup yields that meaning if and only if the first string value that forms the key before the key itself, if any, is followed by the very value the key has |
| FlatObject.FirstOccurrenceExact | src/config.c:102-109 | strstr lands on the genuine key if and only if no earlier string value forms the needle |
| Numbers.DecimalRoundTrip | src/config.c:193-195 | every 32-bit channel survives printing and strtol |
| Numbers.StrtolReads | src/config.c:194 | any decimal number behind blank space and a sign, with any text behind it, is read as itself within 64 bits |
| Numbers.StrtolWithoutDigits | src/config.c:194 | text without digits is read as 0 |
| Config.Load | src/config.c:156-201 | status and whole struct for every file content and I/O outcome |
| Config.LoadOutcomes | src/config.c:156-201 | codes -1, 1 and 0 by exact conditions, and the literal built-in configuration whenever nothing was read |
| Config.FieldsExact | src/config.c:183-198 | what each field becomes of the value found: 255 and 511 characters, an empty BlackHole UID does not count, literal defaults |
| Config.LoadStopsAtNul | src/config.c:178-183 | bytes behind a NUL are not seen |
| Config.ConfigFile.Save | src/config.c:215-252 | return code and file content for every outcome |
| Config.SaveOutcomes | src/config.c:215-252 | the file after saving: whole text, untouched, or a prefix |
| Config.PrintedIsFlat | src/config.c:238-245 | the printed text is a flat object with the four members in order |
| RoundTrip.LoadOverlaysDefaults | src/config.c:14-19 | for any file whose first 8191 bytes are flat, load is the defaults overlaid with the keys present there, independent of order and blank space, if and only if for each key the value behind the first forming value before it sets the field alike |
| RoundTrip.FarKeysAreIgnored | src/config.c:172-180 | behind 8191 bytes of blank space any file loads as the defaults |
| RoundTrip.PrintedFits | src/config.c:172-180 | the saved file is NUL-free and always fits the read buffer |
| RoundTrip.LoadAfterSave | src/config.c:156-252 | what load returns after save, for every configuration the struct can hold |
| RoundTrip.SavedValuesFound | src/config.c:234-245 | what the finder reads of the saved file for each of the four literal keys |
| RoundTrip.RoundTripExact | src/config.c:156-252 | the saved configuration comes back if and only if the interface UID redirects neither gain nor BlackHole UID to a different text; ending in the quoted channel key is harmless |
| RoundTrip.RoundTripFails | src/config.c:102-109 | a concrete configuration that does not survive |
| RoundTrip.SavedKeysFoundExactly | src/config.c:234-245 | in the saved file each key is met at its own line iff the interface UID does not form it; the BlackHole UID never interferes |
| Commands.FindBlackhole | src/main.c:265-280 | an exact UID match, else the first flagged device, else none |
| Commands.BlackholeExact | src/main.c:265-280 | the first device with the preferred UID, else the first flagged one, by position |
| Commands.SetupNoninteractive | src/main.c:445-488 | return code and whole struct for every device list |
| Commands.SetupOutcomes | src/main.c:445-487 | code 0, 1 or 3 exactly by presence of the interface, its own channel range and a named or flagged BlackHole; 1 if devices cannot be enumerated |
| Commands.SetupSaves | src/main.c:483-484 | what an accepted setup saves: all fields as given, and the UID of a named or flagged BlackHole; a named one that is present stays |
| Commands.CmdGain | src/main.c:913-970 | return code and file content for every argument and I/O outcome |
| Commands.GainCodeExact | src/main.c:913-970 | result 0, 1 or 2 by exact conditions on argument, reading and writing |
| Commands.GainFileExact | src/main.c:937-970 | the file after the command by exact conditions: untouched, the printed configuration with the gain, or a prefix of it |
| Commands.GainChangesFileOnlyIfAccepted | src/main.c:937-970 | the file changes only for a number between -60 and 24 dB or NaN, and a readable configuration |
| Commands.GainCommandSucceeds | src/main.c:937-970 | with file access a command succeeds exactly with a number from -60 to 24 or NaN |
| Commands.GainAcceptsNaN | src/main.c:944-950 | `gain nan` reports success and saves NaN on any file |
| Commands.GainCommandsAreUpdates | src/main.c:913-970 | any sequence of commands, refused ones included, leaves the file that the updates with the accepted gains leave |
| Commands.GainUpdates | src/main.c:960-970 | what any sequence of updates on any file reloads as |
| Commands.GainPreservesExactly | src/main.c:960-970 | after any updates on any file: every other field is preserved if and only if the interface UID does not redirect the BlackHole UID to a different text; the gain is the last one as printed if and only if the interface UID does not redirect it to a channel number that reads differently |
| Commands.GainPreservesWritten | src/main.c:960-970 | on a file that save wrote every other field is preserved, without condition |
| Commands.GainCommandIsLost | src/main.c:960-970 | a saved file on which `gain 3` reports success and the gain loaded afterwards is 7 |
| Commands.GainReplacesBlackhole | src/main.c:960-970 | a file on which `gain 3` reports success and replaces the BlackHole UID |
| Commands.CmdRun | src/main.c:670-726 | result 1 or 2, or the options handed on, by exact conditions on configuration, flags and auto-pick |
| Commands.RunFlags | src/main.c:679-704 | the flag loop yields the parsed flags applied to the configuration, or the usage error |
| Commands.StrtoulReadsDecimal | src/main.c:694-695 | a channel flag with an unsigned 32-bit decimal selects that channel |
| Commands.StrtoulReads | src/main.c:694-695 | any decimal number behind blank space and a sign: clamped to 64 bits, negated modulo 2^64, cut to 32 bits |
| Commands.ParseCommandLine | src/main.c:687-704 | any flags in any order are recognised whatever their values |
| Commands.ParseFlagsExact | src/main.c:687-704 | a command line is accepted if and only if it is made of flags, and then as these flags; every other one is a usage error |
| Commands.FlagWords | src/main.c:689-702 | the literal flag words, and words that are none |
| Commands.LastFlagWins | src/main.c:667-669 | the last flag of a kind decides its field |
| Commands.UnflaggedKeepsConfig | src/main.c:667-669 | a field without flag keeps its configured value |
| Pipeline.SetupValidated | src/main.c:453-484 | what acceptance means and what is saved: an own channel of the interface, and the UID of a device that is named or flagged as BlackHole; a named one that is present is kept |
| Pipeline.SameDevicesOfHal | src/aggregate.c:205-217 | while the devices setup saw are still enumerated, the aggregate's list has the channel counts setup saw |
| Pipeline.RunSeesSetup | src/main.c:670-734 | a run without flags works with the saved interface and channel always, and with the saved BlackHole UID and gain if and only if the interface UID does not redirect them to something different |
| Pipeline.SetupThenRun | src/main.c:453-734 | an accepted setup, saved and loaded, with its devices still enumerated, passes the engine's checks and in every callback of the run with lists routes the validated channel, given stable channel counts |

## Left out

- Callback.IoprocCtx.Ioproc: does not model storage that overlaps in part, nor buffers of 2^29 or more channels and lists of 2^31 or more, on which the C code overflows signed arithmetic or indexes outside the buffers.
- RoundTrip.LoadOverlaysDefaults: says nothing of a file of more than 8191 bytes that is cut inside a member.
- Pipeline.SetupThenRun: a NaN or infinite gain factor has no counterpart among the `real` samples.
- CoreAudio and CoreFoundation calls, dictionaries and reference counts: only their answers appear.
- `src/service.c`, the agent reload after `gain`, `devices`, `status`, `fix`, `uninstall`, `_aggtest`, interactive setup, usage text.
- `mkdir_p` and the HOME lookup: their failures are the outcomes `CannotCreate` and `NoHome`.
- The flag loop of `setup`, how the auto-pick of `run` chooses, and the `--dry-run` output.
- The NULL-argument returns of `xb_engine_run` and `xb_aggregate_create`, and the sample-rate setting, whose result the code ignores.
- Weak memory: the atomics are sequentially consistent steps, and the plain location fields are read by the callback alone.
- Changing layouts after a successful resolution: memory stays safe as long as the cached buffers exist, but no routing is claimed.
- Rounding of `float` products, of `%g` and of `strtod`; NaN and infinite samples.
- Hand-edited files with escapes other than `\"` and `\\`: `Json.ScanPieces` says how such a value is read, but the flat-object theorems cover values as the program's own printer escapes them.
- The three silencing loops of the callback are one method, its two strided assignments another.
- The UID arrays of the configuration struct are string fields, with the length bound proved of every value they take.

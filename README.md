# cfn-deploy: a verified model of the sequential core

cfn-deploy wraps `aws cloudformation deploy`. It builds the CLI's argument list,
echoes the CLI's standard output and classifies each line into a progress code.
Meanwhile it polls CloudFormation for stack events and prints each new event as a
styled block. This project models the deterministic parts of that program in
Dafny and proves properties of them:

- `DeployProgress` (`progress.dfy`) is the stdout line classifier. A line is
  lower-cased and trimmed of spaces and periods at both ends, then mapped to one
  of six integer codes.
- `Deploy` (`deploy.dfy`) is the argument builder. `DeployCommand` is a class
  whose `args` map the setters update in place. `Args` renders each entry as
  `--key`, followed by the value when the value is non-empty. Go visits a map
  in an unspecified order, so the method also returns, as a ghost result, the
  key order it took. Its contract holds for every such order.
- `StackStatus` (`status.dfy`) is the static table from CloudFormation status
  strings to the classes Unknown, Ok, Progress and Fail.
- `StackEvents` (`stackevents.dfy`) is the event type, the conversion from the
  API's record, and `Read`. `Read` makes one query through an abstract client
  and walks the answer backwards, keeping the events strictly after a watermark.
- `Orchestrator` (`orchestrator.dfy`) covers three pieces:
  - the mapping from the parsed request to builder calls;
  - the poll loop's watermark and termination logic;
  - the block layout and colour choice for one printed event.

Modelling choices:

- Timestamps are integers (nanoseconds), and `After` is `>`.
- The progress and status codes are integer constants in declaration order,
  numbered as Go's `iota` numbers them.
- The AWS client is a function from the stack name to either an error or a
  list of raw events.
- Colours and the `15:04:05` time format are function parameters left
  uninterpreted.
- The concurrent poller is modelled as a sequence of passes (`Tick`). Each pass
  records whether a progress code was received, and which one, or whether the
  `select` took its default branch. It also records what the client answers
  during that pass.

The polling loop in the source never ends if the final query after end of stream
fails. `PollStepAsWritten` models the code as written, and
`FinalReadFailureNeverStopsAsWritten` shows the poller keeps running.
`PollStep` is the corrected step the rest of the model uses (see Findings).

The model also keeps a second hang, though no lemma states it. When the CLI
prints no line at all, the first code the poller receives is end of stream
itself. The poller then enters the loop. With no further code, `Run` never
stops over passes that receive no code.

The NoChangeset path (`readStackEvents`, internal/orchestrator/orchestrator.go:87-90)
has its own hang. There `stopped` means only that the poller returned. The
progress channel is unbuffered, and the stdout reader's next send on it
(orchestrator.go:153 or :160) has no receiver once the poller is gone. So the
reader never signals its done channel, and `Execute` waits at `<-stdoutChan`
(orchestrator.go:70) forever. The model has no channels, so no lemma states this.

## Model

| member | source | states |
|---|---|---|
| DeployProgress.Progress | internal/deploy/progress.go:5-31 | The classifier is total: every line yields a code from Unmapped to StackCompletion, and never the end-of-stream code. |
| DeployProgress.ProgressMatchesTable | internal/deploy/progress.go:16-29 | A normalised line found in the four-phrase table yields that phrase's code. The result is Unmapped exactly when the normalised line is not one of the four phrases. |
| DeployProgress.ProgressRecognisesPhrase | internal/deploy/progress.go:16-26 | Any casing of a recognised phrase, with any spaces or periods before and after it, yields that phrase's code. |
| DeployProgress.ProgressIgnoresPadding | internal/deploy/progress.go:16 | Adding spaces or periods at either end of a line changes neither its normal form nor its code. |
| DeployProgress.ProgressIgnoresCase | internal/deploy/progress.go:16 | Lower-casing a line first does not change its code. |
| DeployProgress.NormalizeIdempotent | internal/deploy/progress.go:16 | Normalising an already normalised line leaves it unchanged. |
| DeployProgress.TrimIdempotent | internal/deploy/progress.go:16 | Trimming spaces and periods twice is the same as trimming once. |
| DeployProgress.TrimExact | internal/deploy/progress.go:16 | The trimmed string is a contiguous slice of the input, with only spaces and periods on either side. It neither starts nor ends with one. |
| DeployProgress.TrimLeftPadded | internal/deploy/progress.go:16 | Leading spaces and periods are removed whatever follows them. |
| DeployProgress.TrimRightPadded | internal/deploy/progress.go:16 | Trailing spaces and periods are removed whatever precedes them. |
| DeployProgress.TrimLeftAppend | internal/deploy/progress.go:16 | Left-trimming is unaffected by padding appended at the end, unless the whole string is padding. |
| DeployProgress.TrimLeftShape | internal/deploy/progress.go:16 | Left-trimming drops a prefix made only of padding, and leaves a string that is empty or starts with something else. |
| DeployProgress.TrimRightShape | internal/deploy/progress.go:16 | Right-trimming drops a suffix made only of padding, and leaves a string that is empty or ends with something else. |
| DeployProgress.LowerConcat | internal/deploy/progress.go:16 | Lower-casing works character by character, so it distributes over concatenation. |
| DeployProgress.PhraseUnpadded | internal/deploy/progress.go:19-25 | No recognised phrase starts or ends with a space or period, so trimming leaves each unchanged. |
| DeployProgress.UnmappedExample | internal/deploy/progress_test.go:5-10 | The test's line "deploy progress output is unmapped" yields Unmapped. |
| StackStatus.StatusType | internal/stackevents/status.go:3-38 | Every string gets one of the four classes. It gets a class other than Unknown exactly when it is a key of the table. |
| StackStatus.NoEntryUnknown | internal/stackevents/status.go:10-33 | No table entry maps to Unknown. |
| StackStatus.LowerCaseInitialUnknown | internal/stackevents/status.go:36-38 | The lookup is exact: a string starting with a lower-case letter is Unknown. |
| StackStatus.LowerCaseVariantUnknown | internal/stackevents/status.go:36-38 | "create_complete" is Unknown while "CREATE_COMPLETE" is Ok. |
| StackStatus.CreateEntries | internal/stackevents/status.go:11-13 | The three CREATE statuses have their listed classes. |
| StackStatus.DeleteEntries | internal/stackevents/status.go:14-16 | The three DELETE statuses have their listed classes. |
| StackStatus.RollbackEntries | internal/stackevents/status.go:17-19 | The three ROLLBACK statuses have their listed classes. |
| StackStatus.UpdateEntries | internal/stackevents/status.go:20-27 | The four plain UPDATE statuses have their listed classes. |
| StackStatus.UpdateRollbackCompleteEntries | internal/stackevents/status.go:23-24 | The two UPDATE_ROLLBACK_COMPLETE statuses have their listed classes. |
| StackStatus.UpdateRollbackEntries | internal/stackevents/status.go:25-26 | UPDATE_ROLLBACK_FAILED and UPDATE_ROLLBACK_IN_PROGRESS have their listed classes. |
| StackStatus.ImportEntries | internal/stackevents/status.go:28-29 | The two IMPORT statuses have their listed classes. |
| StackStatus.ImportRollbackEntries | internal/stackevents/status.go:30-32 | The three IMPORT_ROLLBACK statuses have their listed classes. |
| StackStatus.CreateSuffixes | internal/stackevents/status.go:11-13 | The final word of each CREATE status announces its class. |
| StackStatus.DeleteSuffixes | internal/stackevents/status.go:14-16 | The final word of each DELETE status announces its class. |
| StackStatus.RollbackSuffixes | internal/stackevents/status.go:17-19 | The final word of each ROLLBACK status announces its class. |
| StackStatus.UpdateSuffixes | internal/stackevents/status.go:20-27 | The final word of each plain UPDATE status announces its class. |
| StackStatus.UpdateRollbackCompleteSuffixes | internal/stackevents/status.go:23-24 | The final word of each UPDATE_ROLLBACK_COMPLETE status announces its class. |
| StackStatus.UpdateRollbackSuffixes | internal/stackevents/status.go:25-26 | The final word of each remaining UPDATE_ROLLBACK status announces its class. |
| StackStatus.ImportSuffixes | internal/stackevents/status.go:28-29 | The final word of each IMPORT status announces its class. |
| StackStatus.ImportRollbackSuffixes | internal/stackevents/status.go:30-32 | The final word of each IMPORT_ROLLBACK status announces its class. |
| StackStatus.TableFollowsSuffixes | internal/stackevents/status.go:10-38 | For each of the 22 keys, the class is the one its suffix names: `_COMPLETE` is Ok, `_FAILED` is Fail and `_IN_PROGRESS` is Progress. |
| StackEvents.New | internal/stackevents/stackevents.go:24-38 | Conversion copies the timestamp, logical id, status, type and physical id unchanged. An absent reason becomes "" and a present one is copied. |
| StackEvents.NewLosesOnlyAbsentReason | internal/stackevents/stackevents.go:24-38 | Two raw events convert to the same event exactly when they agree on every field and on their reason text. |
| StackEvents.Walk | internal/stackevents/stackevents.go:49-57 | The backwards loop over the returned list yields exactly the list filtered to timestamps after `t`, reversed and converted. |
| StackEvents.Read | internal/stackevents/stackevents.go:41-58 | A client error is returned unchanged, with no events. Otherwise the result is the walk's result for the client's list. |
| StackEvents.ReadResultCons | internal/stackevents/stackevents.go:51-55 | One more raw event at the front of the list adds its conversion at the end of the result, if it is after `t`. |
| StackEvents.ConvertAllConcat | internal/stackevents/stackevents.go:53 | Converting a concatenation converts each part. |
| StackEvents.ReverseAt | internal/stackevents/stackevents.go:51 | Reversal keeps the length and puts element `k` at position `len-1-k`. |
| StackEvents.ReverseLength | internal/stackevents/stackevents.go:51 | Reversal keeps the length. |
| StackEvents.NewerThanSpec | internal/stackevents/stackevents.go:52 | The filter keeps exactly the raw events strictly after `t`, and never lengthens the list. |
| StackEvents.NewerThanNewestFirst | internal/stackevents/stackevents.go:52 | Filtering a newest-first list leaves it newest first. |
| StackEvents.ReadResultAfter | internal/stackevents/stackevents.go:52 | Every event Read returns is strictly after the watermark. |
| StackEvents.ReadResultContents | internal/stackevents/stackevents.go:49-57 | The result has one event per kept raw event, newest last. Position `k` holds the conversion of the kept raw event `len-1-k`. An event is in the result exactly when it converts some raw event after `t`. |
| StackEvents.ReadResultChronological | internal/stackevents/stackevents.go:51-55 | Given a newest-first list, the result is oldest first. |
| StackEvents.FixtureReads | internal/stackevents/stackevents_test.go:22-85 | With raw events at `now` and an hour earlier, a watermark a minute old returns just the current event, and a watermark a minute ahead returns none. |
| StackEvents.StatusTestsExclusive | internal/stackevents/stackevents.go:60-70 | At most one of IsOk, IsFailure and IsProgress holds. None holds exactly when the status is not in the table. |
| Deploy.DeployCommand.constructor | internal/deploy/deploy.go:22-26 | A new builder has an empty argument map. |
| Deploy.DeployCommand.SetStackName | internal/deploy/deploy.go:50-53 | Writes the stack-name key and leaves every other key unchanged. A repeated call overwrites the value. |
| Deploy.DeployCommand.SetTemplateFile | internal/deploy/deploy.go:55-58 | Writes the template-file key only. |
| Deploy.DeployCommand.SetProfile | internal/deploy/deploy.go:60-63 | Writes the profile key only. |
| Deploy.DeployCommand.SetParameterOverrides | internal/deploy/deploy.go:65-68 | Writes the parameter-overrides key only, with the parameters joined by single spaces. |
| Deploy.DeployCommand.SetDebug | internal/deploy/deploy.go:70-73 | Writes the debug key only, with the empty value. |
| Deploy.DeployCommand.SetKmsKeyId | internal/deploy/deploy.go:75-78 | Writes the kms-key-id key only. |
| Deploy.DeployCommand.SetS3Bucket | internal/deploy/deploy.go:80-83 | Writes the s3-bucket key only. |
| Deploy.DeployCommand.SetS3Prefix | internal/deploy/deploy.go:85-88 | Writes the s3-prefix key only. |
| Deploy.DeployCommand.SetForceUpload | internal/deploy/deploy.go:90-93 | Writes the force-upload key only, with the empty value. |
| Deploy.DeployCommand.Args | internal/deploy/deploy.go:95-103 | The tokens are the rendering of the map in some order that visits every key exactly once. There is one token per key plus one per non-empty value. When no value starts with `--`, the tokens parse back to the map. |
| Deploy.DeployCommand.AwsCliArgs | internal/deploy/deploy.go:28-30 | The token list is `cloudformation deploy` followed by the rendering of the map in some order of its keys. Its length is two more than the flag tokens' length, and the tokens after the prefix parse back to the map. |
| Deploy.RenderSnoc | internal/deploy/deploy.go:96-100 | Visiting one more key appends that key's group of tokens. |
| Deploy.DistinctCard | internal/deploy/deploy.go:96 | An order that visits each key once has as many elements as the set of keys. |
| Deploy.RenderLengthIn | internal/deploy/deploy.go:95-103 | Rendering keys in a duplicate-free order gives one token per key, plus one per non-empty value. |
| Deploy.RenderLength | internal/deploy/deploy.go:95-103 | The argument list has length `len(Args)` plus the number of keys with a non-empty value. |
| Deploy.RenderHasGroup | internal/deploy/deploy.go:96-100 | For each key, `--key` and then its value, if non-empty, appear as one contiguous group. |
| Deploy.RestrictSnoc | internal/deploy/deploy.go:96 | The entries seen after one more key are the earlier ones plus that key's entry. |
| Deploy.ParseRenderIn | internal/deploy/deploy.go:95-103 | Parsing the tokens of the keys visited so far gives back exactly those keys with their values. |
| Deploy.ParseRender | internal/deploy/deploy.go:95-103 | Parsing the argument list back gives the builder's map, for every visiting order, as long as no value begins with `--`. |
| Deploy.EmptyRender | internal/deploy/deploy.go:95-103 | An empty map renders as no tokens. |
| Deploy.StackNameDebugRender | internal/deploy/deploy_test.go:108-116 | Stack name "test-stack" plus debug renders as `--stack-name test-stack --debug` or `--debug --stack-name test-stack`. |
| Deploy.EmptyCommandArgs | internal/deploy/deploy_test.go:118-126 | A new builder's argument list is exactly `cloudformation deploy`. |
| Deploy.StackNameDebugArgs | internal/deploy/deploy_test.go:108-116 | The test's builder yields `cloudformation deploy` followed by the two groups, in either order. |
| Deploy.SplitSpacesLength | internal/deploy/deploy.go:66 | Splitting on spaces yields at least one piece. |
| Deploy.SplitSpacesPrefix | internal/deploy/deploy.go:66 | Splitting a space-free word, a space and a rest yields the word followed by the rest's pieces. |
| Deploy.SplitJoin | internal/deploy/deploy.go:65-68 | Parameters without spaces can be recovered from the joined parameter-overrides value. |
| Orchestrator.CreateDeployCommand | internal/orchestrator/orchestrator.go:197-225 | The fresh builder's map is the request's argument map after the conditional setter calls. |
| Orchestrator.DeployArgsRequired | internal/orchestrator/orchestrator.go:197-201 | Stack name and template file are always set, even when empty. Every key is one of the nine known flags. |
| Orchestrator.DeployArgsProfileAndParameters | internal/orchestrator/orchestrator.go:203-208 | The profile is present exactly when it is non-empty, and carries that value. Parameter overrides are present exactly when there are parameters, carrying them joined by spaces. |
| Orchestrator.DeployArgsUploadSettings | internal/orchestrator/orchestrator.go:215-223 | The KMS key, S3 bucket and S3 prefix are each present exactly when their field is non-empty, carrying that field. |
| Orchestrator.DeployArgsSwitches | internal/orchestrator/orchestrator.go:209-214 | Debug and force-upload are present exactly when their switch is on, and carry the empty value. |
| Orchestrator.EmptyStackNameBareFlag | internal/orchestrator/orchestrator.go:197-201 | An empty stack name still renders, as the bare flag `--stack-name`, in every visiting order. |
| Orchestrator.Pass | internal/orchestrator/orchestrator.go:114-135 | One loop pass, querying through `Read`, yields exactly the new state, events and query count of the corrected step. |
| Orchestrator.NextWatermark | internal/orchestrator/orchestrator.go:132-134 | The watermark stays put when a fetch returned nothing. Otherwise it moves to the last returned event's timestamp, which for an oldest-first batch is at least every event's timestamp. |
| Orchestrator.PollStepAsWritten | internal/orchestrator/orchestrator.go:114-136 | A stopped poller does nothing. A pass queries exactly when it receives end of stream or no code. As written it stops exactly on end of stream with a successful query. The watermark moves, and events are written, only after a successful query. |
| Orchestrator.PollStep | internal/orchestrator/orchestrator.go:114-136 | As the pass as written, except that the poller stops exactly on end of stream, whatever the query returns. |
| Orchestrator.Run | internal/orchestrator/orchestrator.go:113-137 | A run makes at most one query per pass, and a stopped poller's run writes nothing and queries nothing. |
| Orchestrator.RunUnfold | internal/orchestrator/orchestrator.go:113-137 | For any pass function, a running poller's run is its first pass followed by the run of the rest. |
| Orchestrator.RunDone | internal/orchestrator/orchestrator.go:113-137 | For any pass function, a stopped poller, or one with no passes left, writes nothing and makes no query. |
| Orchestrator.RunAppend | internal/orchestrator/orchestrator.go:113-137 | For any pass function, running two lists of passes one after the other is running their concatenation. The writes and query counts add up. |
| Orchestrator.LoopInvInit | internal/orchestrator/orchestrator.go:106-113 | Before the first pass, the remaining run is the whole run. |
| Orchestrator.LoopInvStep | internal/orchestrator/orchestrator.go:113-137 | One pass keeps the loop invariant: what was written so far, followed by the remaining run, is the whole run. |
| Orchestrator.LoopInvExit | internal/orchestrator/orchestrator.go:113-137 | When the loop ends, its totals are the whole run's. |
| Orchestrator.PollLoop | internal/orchestrator/orchestrator.go:106-137 | The loop writes exactly the events, makes exactly the queries, and stops exactly when the run of corrected passes does. |
| Orchestrator.ReadStackEvents | internal/orchestrator/orchestrator.go:82-137 | A first code of NoChangeset means no query and no output. So does a failed session. Otherwise the loop starts five seconds before `now` and behaves as the corrected run. |
| Orchestrator.WatermarkAdvances | internal/orchestrator/orchestrator.go:126-134 | After a successful fetch the watermark never decreases. It strictly increases when events were returned. |
| Orchestrator.WatermarkCoversBatch | internal/orchestrator/orchestrator.go:131-134 | With a newest-first answer, the new watermark is at least every written event's timestamp. |
| Orchestrator.PollStepMonotone | internal/orchestrator/orchestrator.go:114-135 | One pass never moves the watermark back, and writes only events after the old watermark. |
| Orchestrator.RunMonotone | internal/orchestrator/orchestrator.go:113-137 | Over any run the watermark never decreases, and every written event is after the starting watermark. |
| Orchestrator.RunChronological | internal/orchestrator/orchestrator.go:113-137 | When every answer is newest first, all events written across passes are in non-decreasing time order. |
| Orchestrator.PassPrecedesRest | internal/orchestrator/orchestrator.go:126-134 | When every answer is newest first, the events one pass writes are strictly older than every event written by the later passes. So no event is written by two passes. |
| Orchestrator.RunStopsIffEndOfStream | internal/orchestrator/orchestrator.go:115-123 | The corrected poller stops exactly when some pass receives the end-of-stream code. |
| Orchestrator.EndOfStreamFirst | internal/orchestrator/orchestrator.go:115-123 | A pass that receives end of stream queries once and stops; the passes after it add nothing. |
| Orchestrator.RunEndsAtEndOfStream | internal/orchestrator/orchestrator.go:115-123 | End of stream causes exactly one final query. Its events are written and the passes after it change nothing. |
| Orchestrator.EndOfStreamOnlyScenario | internal/orchestrator/orchestrator.go:115-123 | If the first pass receives end of stream, the poller makes one query, writes its result and stops with the watermark unchanged. |
| Orchestrator.FinalReadFailureNeverStopsAsWritten | internal/orchestrator/orchestrator.go:115-121 | As written, a failed final query leaves the poller running, and no number of later passes without a code stops it. |
| Orchestrator.PollStepStopsAtEndOfStream | internal/orchestrator/orchestrator.go:115-123 | With the corrected step, end of stream makes a query and then stops the poller, whatever the query returns. |
| Orchestrator.EventLines | internal/orchestrator/orchestrator.go:186-192 | An event's block is a header line, then the reason line exactly when the reason is non-empty, then one blank line. The reason line is eight spaces, a space and the italic reason. |
| Orchestrator.WriteStackEvent | internal/orchestrator/orchestrator.go:172-194 | The text written is the block's lines, each ending in a newline. Its status is styled by the status class. |
| Orchestrator.StatusStyleMatchesTests | internal/orchestrator/orchestrator.go:173-180 | The if-else chain on IsOk, IsFailure and IsProgress agrees with the class table. Ok is green, Fail red, Progress blue and everything else plain. |

## Left out

- `DeployCommand.Execute` and the subprocess it starts (`exec.Command`, the stdout and stderr pipes) are operating-system I/O.
- `Command.Execute`, `stdoutHandler` and `stderrHandler` are left out, along with the goroutines, channels, `select` timing and `time.Sleep` of the poller. They are concurrency and timing. The poller is modelled as a sequence of passes instead.
- AWS session creation is a foreign SDK call. It is a boolean `sessionOk` given to `ReadStackEvents`. `DescribeStackEvents` is the abstract client.
- `log.Println`, `log.Fatal` and `Debugf` are logging side effects and are not modelled.
- ANSI colour codes and `time.Format("15:04:05")` are function parameters `paint` and `clock`, and are not interpreted.
- `time.Time` is an integer timestamp in nanoseconds.
- StackEvents.New: the five SDK pointers it dereferences (timestamp, logical id, status, type and physical id, stackevents.go:25-29) are taken to be present. The nil-pointer panic when one is missing is not modelled.
- DeployProgress.Lower: lower-cases ASCII letters only. Go's `strings.ToLower` also folds other Unicode letters, such as the Kelvin sign, which it maps to `k`.
- Deploy.DeployCommand.SetStackName (and the other setters): the receiver they return to allow chaining is not modelled; they are called one after another instead.
- Deploy.DeployCommand.Args: the actual order Go's map iteration takes is not modelled. The contract holds for every visiting order, so the order-dependent comparison in the unit test is stated as two alternatives.
- `cmd/cfn-deploy/main.go` is only command-line flag wiring and is not part of this model.
- The `write` closure in `readStackEvents` prints each event with `writeStackEvent` in order. The poller's result is that sequence of events, not the printed text.

## Findings

| source | as written | input that shows it | evidently intended | confidence | as-written member | corrected member |
|---|---|---|---|---|---|---|
| internal/orchestrator/orchestrator.go:115-123 | When the final query after end of stream fails, `break` leaves only the `select`, not the `for`. The stdout reader sends nothing after end of stream, so the loop polls in its default branch forever. `Execute` then blocks on the poller's done channel. | The CLI's output ends, then `DescribeStackEvents` returns an error for the final query | The poller returns after end of stream whether or not the final query succeeds | not executed | Orchestrator.PollStepAsWritten, Orchestrator.FinalReadFailureNeverStopsAsWritten | Orchestrator.PollStep, Orchestrator.PollStepStopsAtEndOfStream, Orchestrator.RunStopsIffEndOfStream |

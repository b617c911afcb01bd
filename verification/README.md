# A verified model of the YipYap Knative source

The repository has two programs. A controller turns every `YipYapSource` resource into
an adapter Deployment and keeps the resource's status; the adapter fetches CloudEvents
from the yipyap server, by polling with a cursor or over a stream, and posts them to a
sink. This project models the parts of both that keep state over time, and proves what
holds over all of their runs.

Code that changes things step by step is modelled by methods on classes: the poll loop,
the cursor file, the stream and reconnect loops, the dispatcher, the condition manager,
the two reconcilers, the informer factory. Each such method is proved equal to a function
of its inputs and the old state. What spans many calls is proved about step systems, in
which the environment (the server, the sink, the disk, other writers, other threads, the
clock) may do anything its contract allows at every step.

| file | what it models |
|---|---|
| `CursorFile.dfy` | reading the cursor file and replacing it through a temporary file |
| `Delivery.dfy` | the step system of ticks, fetches, emits, persists, sessions and crashes |
| `Fleet.dfy` | any number of pods doing so at once, each with its own filters and a volume that goes with it |
| `PollClient.dfy`, `PollSessions.dfy` | the poll loop as code, and its sessions as runs of that system |
| `StreamLoop.dfy` | the line loop of one stream connection |
| `Backoff.dfy`, `Dispatcher.dfy`, `Durations.dfy` | reconnecting and re-resolving, timed in nanoseconds |
| `AdapterConfig.dfy`, `Mode.dfy`, `Text.dfy` | the environment parser and the choice of transport |
| `AdapterDeployment.dfy`, `EnvExpansion.dfy` | API defaults, the rendered template, and what the adapter reads back |
| `SinkClient.dfy`, `BinaryRequest.dfy`, `HeaderValue.dfy` | overrides, the binary-mode request, and what its receiver reads |
| `Forwarding.dfy` | sending one event, and what an event that cannot be sent does to delivery |
| `Lifecycle.dfy` | the conditions of a source |
| `ApiServer.dfy` | an API server with optimistic concurrency, for one object |
| `SourceReconciler.dfy`, `StatusUpdate.dfy` | ReconcileKind, and the generated reconciler around it |
| `InformerFactory.dfy`, `FactorySections.dfy` | the shared informer factory, as threads and as code |

## What is assumed

- The yipyap server holds a log of envelopes with distinct ids; every cursor stands for a
  position in it, the empty one for its beginning; a response is a contiguous slice from
  the cursor's position to that of the next cursor, from which the events that a pod's
  filters do not match are left out. All pods of a source ask one server and send to one
  sink. Streams may deliver anything.
- Renaming a file is atomic, and a crash is one of the process. A pod that is replaced
  loses its whole volume; no other fault of a disk is modelled.
- The API server accepts a replacement only of the latest version, makes a new version for
  every write that changes something, and may default the template it stores.
- The kubelet expands `$(NAME)` and `$$` in a literal environment value as documented on
  `EnvVar.Value`, with the entries before it and then the service variables; no service
  variable has the name of one of the adapter's.
- Events are CloudEvents 1.0: the SDK's 0.3 context neither checks nor lower-cases the
  names of extensions. Their values are strings, and strings are sequences of bytes.
- The HTTP client refuses a header value with a control character in it, and the blanks
  around a value are not part of it. A receiver decodes values by section 3.1.3.3 of the
  CloudEvents HTTP Protocol Binding 1.0.2; a value that is a quoted string as a whole is
  taken out of its quotes.
- A condition is its status, reason and message; times of transition do not count when
  statuses are compared, as the generated code compares them.
- `json.Unmarshal` undoes `json.Marshal` on the overrides. `kmeta.ChildName`, the sink
  resolver and `time.ParseDuration` are inputs.
- `range` over a Go map may take any order.

## What the code does not do

Each of these is proved of all inputs, with the exact condition under which the intended
property does hold.

- A source whose `mode` is not set gets `auto` from `SetDefaults`, which the generated
  reconciler calls on every leader reconcile. The adapter refuses `auto`, so its process
  ends at once (`AdapterDeployment.AutoNeverStarts`): a defaulted source has an adapter that
  starts if and only if its user wrote `poll` or `stream`
  (`AdapterDeployment.DefaultedStartsIffModeNamed`).
- The Deployment's literal values are not escaped. The adapter reads them as the spec has
  them if and only if none has a `$$` or a reference that expands to something else
  (`AdapterDeployment.VerbatimIffCarried`), unless a value refers to a variable whose value
  refers to itself, which can hide a loss (`EnvExpansion.SelfReferenceHides`). A value is safe
  whatever the variables hold if and only if no dollar sign in it begins anything
  (`EnvExpansion.AlwaysComesThrough`). An override value that refers to `YIPYAP_API_KEY`
  reaches the adapter as the key itself (`AdapterDeployment.OverrideReadsKey`).
- `InitializeConditions` leaves a condition alone that is already set. A Deployment without
  an Available condition therefore does not show as deploying, as the comment on
  `propagateDeploymentAvailability` says, but as the previous reconcile had it
  (`SourceReconciler.ReadyAfterReconcile`, `SourceReconciler.StaleReady`).
- The controller stops writing its Deployment if and only if the server admits the rendered
  template as it is; where it fills in a field, every reconcile writes again
  (`SourceReconciler.Convergence`).
- A list of globs survives joining and parsing if and only if each is non-empty, trimmed and
  free of commas, which nothing enforces (`AdapterConfig.FilterRoundTrip`), and so it reaches
  the adapter if the environment carries it (`AdapterDeployment.GlobsReachAdapter`).
- `LoadConfig` accepts a poll interval of any sign (`Mode.NonPositiveIntervalLoads`), and on
  one that is not positive `time.NewTicker` panics: an interval of minus five seconds loads
  and panics in every session (`Dispatcher.NegativeIntervalPanics`). A hint of more than
  9223372036 seconds overflows (`Mode.SecondsExact`), to a positive interval if and only if
  `Mode.PositiveSeconds` holds of it (`Mode.TickerPositive`). The controller sets no
  interval, so an adapter it rendered panics if and only if a hint in force overflows so
  (`Dispatcher.RenderedPanicsIffHintOverflows`).
- The binary-mode request has no header for `dataschema` and sends every value as it is:
  the sink reads the event back if and only if it had no dataschema and no value of it has
  a control character, a blank at an end, a percent escape, or is a quoted string
  (`BinaryRequest.BinaryRoundTrip`). A subject of `%41` arrives as `A`
  (`BinaryRequest.EscapeIsDecoded`). An event with a control character in a value is never
  sent, and no cursor ever passes it (`Forwarding.UnsendableNeverPassed`).
- All orders of the loop over the overrides send the same event if and only if no two
  names that are equal in lower case have different values
  (`SinkClient.OrdersAgreeIffClashFree`).
- A rollout that widens the filters can deliver an earlier event after a later one, and then
  the deduplicated log has neither the old order nor the new one (`Fleet.FiltersDisagree`).

## Model

| member | source | states |
|---|---|---|
| Fleet.ExactlyOnceAfterDedupe | cmd/receive-adapter/source/poll.go:64-97 | in every history of any number of pods that poll at once with one filter, with fetch errors, failed and lost acknowledgements, failed persists, restarts, unreadable files, crashes and lost volumes, the first occurrences in the sink's log are the server's well-formed events under that filter in order and without a gap, at least as far as any cursor |
| Fleet.AtLeastOnce | cmd/receive-adapter/source/poll.go:109-120 | in every history of any number of pods, with filters of their own, mode flips, rollouts and lost volumes, each well-formed event a pod's filter matches below its memory cursor or its disk cursor was received and acknowledged |
| Fleet.FiltersDisagree | cmd/receive-adapter/source/poll.go:109-120 | a history of two pods with different filters whose deduplicated sink log is in the order of neither, so one filter is a needed hypothesis |
| Fleet.MoveInStep | cmd/receive-adapter/source/poll.go:72-95 | whatever one pod does keeps every other pod's invariant: the deduplicated sink log stays a prefix that reaches past all their cursors |
| Fleet.PodRuns | cmd/receive-adapter/source/run.go:57-100 | every run of one pod alone is part of a history among others |
| Forwarding.Send | cmd/receive-adapter/source/sink.go:52-88 | the request sent is that of the event with the overrides on top; of a request that was let go and answered, nil is returned exactly for a status from 200 to 299, and a permanent error exactly for any other below 500 but 408 and 429 |
| Forwarding.UnsendableNeverPassed | cmd/receive-adapter/source/sink.go:60-72 | in every run whose outcomes are those of sends, an event with a value HTTP cannot carry stops both cursors at or before it |
| Forwarding.RefusedNeverPassed | cmd/receive-adapter/source/sink.go:76-87 | the same of an event whose sends are all answered with a status outside 200 to 299 |
| Delivery.AtLeastOnce | cmd/receive-adapter/source/run.go:57-100 | in every run, with mode flips too, each well-formed event below the memory cursor or the disk cursor was received and acknowledged; a session that could read the file is never behind the disk |
| Delivery.UnacknowledgedNeverPassed | cmd/receive-adapter/source/sink.go:76-87 | an event the sink never acknowledges, permanent error or not, stops both cursors at or before it |
| Delivery.StreamBreaksOrder | cmd/receive-adapter/source/stream.go:144-164 | a reachable state after a stream session in which the deduplicated log is not a prefix, so polling only is a needed hypothesis |
| Delivery.StepSafe | cmd/receive-adapter/source/poll.go:72-95 | every step keeps the safety invariant that ties cursors, batch in flight and disk to acknowledged events |
| Delivery.StepInStep | cmd/receive-adapter/source/poll.go:78-88 | every step but starting a stream keeps the deduplicated sink log a prefix that reaches past the cursors and the part of the batch sent |
| Delivery.DedupeKeepsFirsts | cmd/receive-adapter/source/poll.go:55-63 | what a receiver that remembers ids keeps is the first event of each id, in the order of arrival |
| CursorFile.CursorStore.WriteCursor | cmd/receive-adapter/source/poll.go:177-209 | nil exactly when every system call worked and the temporary name was free, and then exactly the target is replaced; an error leaves it as it was; and the register is unchanged in every state the disk passes through, except the last one of a call that succeeds |
| CursorFile.CursorStore.Stage | cmd/receive-adapter/source/poll.go:185-203 | creating, filling and closing the temporary file, with every intermediate state, and its removal on failure |
| CursorFile.CrashLeavesOldOrNew | cmd/receive-adapter/source/poll.go:173-176 | a crash at any point leaves the whole old or the whole new cursor |
| CursorFile.NextReadAfterWrite | cmd/receive-adapter/source/poll.go:159-171 | the next read gives the new cursor if and only if the write succeeded, and no temporary file is left if Remove works |
| CursorFile.Settled | cmd/receive-adapter/source/poll.go:190-208 | an error leaves the register as it was; success replaces exactly the target |
| CursorFile.ReadCursor | cmd/receive-adapter/source/poll.go:159-171 | the file's content, or the empty cursor when it is missing, unreadable or not configured |
| PollClient.PollClient.Run | cmd/receive-adapter/source/poll.go:64-97 | a session's final cursor, files, sink log and acknowledgements as a function of what its ticks met |
| PollClient.AcknowledgedTick | cmd/receive-adapter/source/poll.go:72-92 | a tick whose events are all acknowledged adds them to the sink's log in order, moves the cursor to the next one, and with a working disk replaces exactly the cursor file by it |
| PollClient.FailedTick | cmd/receive-adapter/source/poll.go:78-88 | a tick with a failure has sent what is before it and nothing after it, and moves neither cursor |
| PollClient.SessionPersists | cmd/receive-adapter/source/poll.go:89-94 | over a whole session in which no write fails the file always holds the cursor |
| PollClient.PollClient.EmitAll | cmd/receive-adapter/source/poll.go:78-88 | emit is called on exactly the prefix up to and including the first failure |
| PollClient.PollClient.Fetch | cmd/receive-adapter/source/poll.go:145-154 | the well-formed envelopes in order, malformed ones skipped |
| PollSessions.TickIsRun | cmd/receive-adapter/source/poll.go:72-95 | one tick of the code is a run of the step system |
| PollSessions.SessionKeepsDelivery | cmd/receive-adapter/source/poll.go:64-97 | any history followed by a session of the code is a run, so at-least-once holds of what it leaves, and exactly-once after deduplication if no stream was used |
| PollSessions.SessionAmongOthers | cmd/receive-adapter/source/poll.go:64-97 | a session of the code in one pod is a part of a history of the fleet, against what its filter shows it |
| PollSessions.StreamIsRun | cmd/receive-adapter/source/stream.go:144-164 | a stream connection of the code is a run inside a stream session |
| PollSessions.AcknowledgedTickSucceeds | cmd/receive-adapter/source/poll.go:72-92 | which ticks shorten the backlog: those that hold the log from the cursor to a later one and are all acknowledged |
| PollSessions.Drains | cmd/receive-adapter/source/poll.go:89-94 | every successful tick shortens what remains and no failed one lengthens it |
| PollSessions.BacklogDelivered | cmd/receive-adapter/source/poll.go:72-95 | from any reachable state, as many successful ticks as envelopes remain leave every event acknowledged |
| StreamLoop.StreamOnce | cmd/receive-adapter/source/stream.go:144-164 | emits the events of the lines whatever the sink answers; gotEvent holds exactly when something was emitted |
| StreamLoop.EmittedIffCarries | cmd/receive-adapter/source/stream.go:146-154 | a line is emitted if and only if it is not blank and decodes |
| StreamLoop.EmittedInOrder | cmd/receive-adapter/source/stream.go:146-162 | the emitted events are those of these lines, once each, in line order |
| StreamLoop.PollStopsStreamGoesOn | cmd/receive-adapter/source/poll.go:78-88 | on the same events polling emits a prefix, and all of them if and only if nothing before the last fails |
| Backoff.Run | cmd/receive-adapter/source/stream.go:64-90 | the attempts and waits of a session, to the nanosecond, and that it returns only when its window is over |
| Backoff.WaitsClosedForm | cmd/receive-adapter/source/stream.go:74-88 | every wait is min(250 ms doubled k times, 30 s), k counting disconnects since the latest that saw an event |
| Backoff.FruitlessReachesBack | cmd/receive-adapter/source/stream.go:74-78 | that count reaches back exactly to the latest disconnect that saw an event, or to the first |
| Backoff.SumClosedForm | cmd/receive-adapter/source/stream.go:32-40 | the sum of the waits of an outage in closed form |
| Backoff.AttemptBound | cmd/receive-adapter/source/stream.go:66-89 | any session of length W makes at most W/250 ms + 1 attempts |
| Backoff.OutageAttemptBound | cmd/receive-adapter/source/stream.go:66-89 | a session without events of at least 31.75 s makes at most 8 + (W - 31.75 s)/30 s attempts, and exactly that many when connections fail at once |
| Dispatcher.Run | cmd/receive-adapter/source/run.go:57-100 | which resolutions it makes and when: each is ResolveMode's and comes when the pass before it has taken its time; it stops only in a transport that still runs, and panics exactly on a poll interval that is not positive |
| Dispatcher.OnePass | cmd/receive-adapter/source/run.go:58-99 | one pass takes the error wait, or as long as its transport runs: at least the session window, because neither returns earlier and no third mode exists |
| Dispatcher.LeavesWhenOver | cmd/receive-adapter/source/poll.go:68-72 | a poll session leaves in the first turn in which its context ends before the ticker, at the end of its window or of a tick that goes on for longer |
| Dispatcher.TicksUntilThen | cmd/receive-adapter/source/poll.go:68-75 | until then every tick fires and runs its course |
| Dispatcher.ResolvesApart | cmd/receive-adapter/source/run.go:20-28 | n resolutions take at least 30 s each, and a minute each if none fails |
| Dispatcher.NoResolveStorm | cmd/receive-adapter/source/run.go:18-22 | with a configuration that loaded, n resolutions take at least n minutes, whatever the server hints |
| Dispatcher.SessionWindow | cmd/receive-adapter/source/run.go:69-74 | the window is the larger of the resolution's and one minute |
| Mode.AcceptedResolves | cmd/receive-adapter/source/mode.go:44-66 | every mode LoadConfig accepts resolves, and poll or stream wins over every other layer |
| Mode.EachLayer | cmd/receive-adapter/source/mode.go:44-106 | what each layer of the chain decides and when it is asked, with the mode, the interval and the refresh it gives |
| Mode.StreamIffHinted | cmd/receive-adapter/source/mode.go:170-178 | with nothing configured the adapter streams if and only if the server's recommendation, trimmed and in lower case, is stream, and polls otherwise |
| Mode.WordOfPadded | cmd/receive-adapter/source/mode.go:47 | a mode is read in any case and with any space around it |
| Mode.SecondsExact | cmd/receive-adapter/source/mode.go:179-188 | the int64 product is exact if and only if the hint is at most 9223372036 seconds |
| Mode.SecondsSign | cmd/receive-adapter/source/mode.go:179-188 | the sign of the int64 product for every hint: positive if and only if the hint is no multiple of 2^55 and makes an even count of whole half ranges |
| Mode.SecondsOverflow | cmd/receive-adapter/source/mode.go:179-180 | hints in range, the first that turns negative, and one that turns positive again |
| Mode.TickerPositive | cmd/receive-adapter/source/mode.go:170-190 | from all four layers and for every hint, a poll session's interval is positive exactly when the seconds of the hint in force stay positive, or there are none and the configured interval is |
| Mode.NonPositiveIntervalLoads | cmd/receive-adapter/source/config.go:69-75 | exactly which environments of mode poll load, with no condition on the interval's sign, and that this interval is the one of every poll session |
| Dispatcher.NegativeIntervalPanics | cmd/receive-adapter/source/config.go:69-75 | an environment that loads and panics whatever the mode file and the server say |
| Dispatcher.RenderedPanicsIffHintOverflows | pkg/reconciler/yipyapsource/resources/deployment.go:69-93 | an adapter the controller rendered panics if and only if a server's hint in force overflows |
| AdapterConfig.LoadConfig | cmd/receive-adapter/source/config.go:38-85 | which environments load, field by field what they load as, and the error of each other one |
| AdapterConfig.ParseEventFilters | cmd/receive-adapter/source/config.go:97-105 | the loop is the function Filters |
| AdapterConfig.FiltersAtComma | cmd/receive-adapter/source/config.go:97-105 | the filters of a text are those of what stands between its commas, one after the other |
| AdapterConfig.FiltersOfOne | cmd/receive-adapter/source/config.go:99-102 | what stands between commas is trimmed, and kept if anything is left |
| AdapterConfig.ParseJoin | pkg/reconciler/yipyapsource/resources/deployment.go:95-104 | parsing the joined list is parsing its elements one after the other |
| AdapterConfig.FilterRoundTrip | pkg/reconciler/yipyapsource/resources/deployment.go:95-104 | the list comes back if and only if every glob is non-empty, trimmed and comma-free |
| AdapterConfig.FilterFixedPoint | cmd/receive-adapter/source/config.go:97-105 | parsing, joining and parsing again changes nothing |
| AdapterDeployment.SpecHolder.SetDefaults | pkg/apis/sources/v1alpha1/yipyapsource_defaults.go:47-60 | the defaulted spec, in place |
| AdapterDeployment.MakeTemplate | pkg/reconciler/yipyapsource/resources/deployment.go:65-178 | the template, built step by step, is the function RenderTemplate of the spec |
| AdapterDeployment.TemplateMeans | pkg/reconciler/yipyapsource/resources/deployment.go:69-93 | its label, image, service account and fixed environment entries |
| AdapterDeployment.OptionalEntries | pkg/reconciler/yipyapsource/resources/deployment.go:95-115 | the filter and overrides entries are there exactly if there is something to say, and say it |
| AdapterDeployment.VerbatimIffCarried | vendor/k8s.io/api/core/v1/types.go:2472-2480 | the container has every literal as the list has it if none has a $$ or a reference that expands to something else, and, unless a literal refers to a variable whose value refers to itself, only if |
| EnvExpansion.ComesThrough | vendor/k8s.io/api/core/v1/types.go:2472-2480 | the same for one value: what the expansion loses once nothing after it can make up for |
| EnvExpansion.SelfReferenceHides | vendor/k8s.io/api/core/v1/types.go:2472-2480 | why what a value refers to may not refer to itself: an input whose loss is hidden |
| EnvExpansion.AlwaysComesThrough | vendor/k8s.io/api/core/v1/types.go:2472-2480 | a value comes through whatever the variables hold if and only if no dollar sign in it is followed by another or by a complete reference |
| AdapterDeployment.MeaningPreserved | pkg/reconciler/yipyapsource/resources/deployment.go:69-115 | when the environment is carried, the adapter starts if and only if sink and key are not empty and the mode is accepted, and then its configuration is the one the spec asks for |
| AdapterDeployment.IntendedMeans | cmd/receive-adapter/source/config.go:38-50 | field by field, that configuration is what the spec says, with the defaults of what it leaves open |
| AdapterDeployment.GlobsReachAdapter | pkg/reconciler/yipyapsource/resources/deployment.go:95-104 | a carried list of globs is what the adapter filters by if and only if every glob is non-empty, trimmed and comma-free |
| AdapterDeployment.OverrideReadsKey | pkg/reconciler/yipyapsource/resources/deployment.go:106-115 | an override value that refers to the key's variable reaches the adapter with the key in its place |
| AdapterDeployment.ModeReachesTransport | cmd/receive-adapter/source/mode.go:44-61 | a spec's poll or stream is the resolved mode whatever the mode file or the server says |
| AdapterDeployment.AutoNeverStarts | pkg/apis/sources/v1alpha1/yipyapsource_defaults.go:54-56 | the adapter of a defaulted spec that named no mode, or auto, never starts, whatever its other values |
| AdapterDeployment.DefaultedStartsIffModeNamed | pkg/apis/sources/v1alpha1/yipyapsource_defaults.go:54-56 | the adapter of a defaulted spec with a carried environment starts if and only if the user wrote poll or stream |
| SinkClient.ApplyOverrides | cmd/receive-adapter/source/sink.go:52-58 | the loop is the overrides set one by one in some order, so that every extension an override names has an override's value and every other one is as it was |
| SinkClient.SetExtensionMeans | vendor/github.com/cloudevents/sdk-go/v2/event/eventcontext_v1.go:90-118 | a valid name that is no core attribute sets the extension of its lower-case form and no other, and any other name sets nothing |
| SinkClient.OrdersAgreeIffClashFree | cmd/receive-adapter/source/sink.go:56-58 | all orders of the loop send the same event if and only if no two overrides of one attribute have different values |
| BinaryRequest.BuildBinaryRequest | cmd/receive-adapter/source/sink.go:94-137 | the headers set one by one, the extensions in any order: one header under its canonical name for each attribute, none lost to another, the Content-Type, and no other |
| BinaryRequest.HeaderNamesAttribute | cmd/receive-adapter/source/sink.go:139-147 | the canonical header name stands for the attribute again, so no two attributes share a header |
| BinaryRequest.ReceivedReread | cmd/receive-adapter/source/sink.go:110-136 | what the sink reads of every event: nothing if a value cannot be sent, and else each attribute as section 3.1.3 of the CloudEvents HTTP Protocol Binding 1.0.2 decodes it |
| HeaderValue.ReadsBack | cmd/receive-adapter/source/sink.go:131-134 | a value sent as it is reads back if and only if it has no blank at an end, is no quoted string and has no percent escape |
| HeaderValue.EncodedReadsBack | cmd/receive-adapter/source/sink.go:131-134 | had the code encoded values as section 3.1.3.2 says, every value could be sent and would read back |
| BinaryRequest.BinaryRoundTrip | cmd/receive-adapter/source/sink.go:110-136 | the sink reads back the event, content type filled in, if and only if it had no dataschema and all its values can be sent and read back |
| BinaryRequest.EscapeIsDecoded | cmd/receive-adapter/source/sink.go:118-120 | an input that fails: a subject of %41 |
| BinaryRequest.OverridesReachTheSink | cmd/receive-adapter/source/sink.go:52-63 | of every event that arrives, each extension is an override's where one names it and the event's otherwise, and nothing else changed |
| BinaryRequest.OverrideReadAsGiven | cmd/receive-adapter/source/sink.go:56-58 | an override without a clash is read as it was given if and only if its value means itself |
| Lifecycle.MarksStand | pkg/apis/sources/v1alpha1/yipyapsource_lifecycle.go:64-92 | after any marks on any status, each condition is what the latest mark about it said, reason and message included, and Ready sums them up |
| Lifecycle.MarkedMeans | vendor/knative.dev/pkg/apis/condition_set.go:258-415 | what one mark makes of its own condition, of the other one and of Ready, reason and message included |
| Lifecycle.ReadyIffLatestMarks | pkg/apis/sources/v1alpha1/yipyapsource_lifecycle.go:53-92 | on a fresh status, Ready if and only if the latest sink mark was MarkSink with a URI and the latest deployment mark MarkDeployed |
| Lifecycle.SourceStatus.MarkUnknown | vendor/knative.dev/pkg/apis/condition_set.go:354-392 | the manager's loop sets the condition and makes Ready the summary of both, with its reason unless Ready is False by the other one |
| Lifecycle.SourceStatus.MarkTrue | vendor/knative.dev/pkg/apis/condition_set.go:258-301 | likewise, through the search for an unhappy dependent, whose reason Ready takes over whichever changed last |
| Lifecycle.SourceStatus.FindUnhappyDependent | vendor/knative.dev/pkg/apis/condition_set.go:303-350 | False before Unknown before missing; none exactly when both are True |
| Lifecycle.SourceStatus.InitializeConditions | vendor/knative.dev/pkg/apis/condition_set.go:416-450 | sets what is missing and leaves the rest |
| SourceReconciler.StaleCacheSafety | pkg/reconciler/yipyapsource/yipyapsource.go:105-129 | over every interleaving of reconciles with caches of any age and other writers, nothing is created over an existing Deployment, no newer write is replaced, and each version the controller makes is the one it read with the template and replicas rendered from the spec that reconcile read |
| SourceReconciler.ReconcileIsRun | pkg/reconciler/yipyapsource/yipyapsource.go:105-129 | what a reconcile of the code does to the history, with others' writes, refusals and lost answers, is a run of that system with at most one call |
| SourceReconciler.FreshReconcile | pkg/reconciler/yipyapsource/yipyapsource.go:106-130 | with a fresh cache one reconcile succeeds, reaches the rendered template and replicas, and keeps every other field |
| SourceReconciler.Convergence | pkg/reconciler/yipyapsource/yipyapsource.go:118-128 | after a write, n more reconciles write 0 times if the server admits the template unchanged and n times otherwise |
| SourceReconciler.Reconciler.ReconcileKind | pkg/reconciler/yipyapsource/yipyapsource.go:88-136 | the ending, the Deployment's history also when an answer is lost, and the status as the marks of that ending, reasons and messages included, on the initialised conditions |
| SourceReconciler.Reconciler.Deploy | pkg/reconciler/yipyapsource/yipyapsource.go:106-130 | create, update or nothing, and the error that each may end in |
| SourceReconciler.Reconciler.PropagateAvailability | pkg/reconciler/yipyapsource/yipyapsource.go:142-157 | the first condition of type Available, wherever it stands, gives Deployed its status and words; without one nothing changes |
| SourceReconciler.EndingMeans | pkg/reconciler/yipyapsource/yipyapsource.go:88-136 | what the conditions say after each failing ending, reasons and messages included |
| SourceReconciler.DoneEndingMeans | pkg/reconciler/yipyapsource/yipyapsource.go:101-157 | what they say when the Deployment is there |
| SourceReconciler.ReadyAfterReconcile | pkg/reconciler/yipyapsource/yipyapsource.go:132-157 | Ready after a reconcile if and only if the sink has a URI and the Deployment is available, or reports nothing while Deployed was already True |
| SourceReconciler.ReadyAfterFailure | pkg/reconciler/yipyapsource/yipyapsource.go:98-127 | which failures can leave a source Ready: only a failed cache lookup under an old Deployed |
| SourceReconciler.StaleReady | pkg/reconciler/yipyapsource/yipyapsource.go:138-141 | a new Deployment without conditions leaves a once deployed source Ready |
| StatusUpdate.UpdateStatus | pkg/client/injection/reconciler/sources/v1alpha1/yipyapsource/reconciler.go:332-364 | at most one write, on top of all others', changing only the status of the version before it; nil vouches for a version with the desired status, a later one than the lister's when there was something to update; an error means that the object is gone, that a call failed, or that others wrote during every attempt |
| StatusUpdate.PutStatus | pkg/client/injection/reconciler/sources/v1alpha1/yipyapsource/reconciler.go:357-362 | a write happens with exactly the version that was read, or not at all |
| StatusUpdate.ReconcilerImpl.Reconcile | pkg/client/injection/reconciler/sources/v1alpha1/yipyapsource/reconciler.go:188-300 | no write at all unless leader, listed and not deleting, and a lister's error is returned; the status written is that of the ending; the stored template is the rendering of the defaulted spec that was read |
| StatusUpdate.FinalStatusMeans | pkg/reconciler/yipyapsource/yipyapsource.go:88-136 | the fields of the status written, after each ending |
| StatusUpdate.ReconcilerImpl.Prepare | vendor/knative.dev/pkg/reconciler/reconcile_common.go:52-72 | defaults, initialised conditions, and Ready reset on a new generation |
| InformerFactory.OncePerType | pkg/client/informers/externalversions/factory.go:125-201 | under any interleaving each constructor runs at most once, every caller gets the same informer, each is launched at most once, and the WaitGroup is what was launched and has not finished |
| InformerFactory.StartLaunchesAll | pkg/client/informers/externalversions/factory.go:133-146 | a Start that leaves its loop has every registered informer launched exactly once |
| InformerFactory.SyncCopiesStarted | pkg/client/informers/externalversions/factory.go:158-170 | WaitForCacheSync waits for exactly the informers started when it took the lock |
| InformerFactory.ShutDownForGood | pkg/client/informers/externalversions/factory.go:129-131 | once a Shutdown has set the flag nothing is launched and the counter never rises |
| InformerFactory.ReturnedShutdownIsFinal | pkg/client/informers/externalversions/factory.go:149-156 | after a Shutdown has returned no goroutine of the factory runs, then or ever; while one waits no thread is about to Add |
| FactorySections.SharedInformerFactory.Start | pkg/client/informers/externalversions/factory.go:125-147 | the loop over the maps is what a thread of the protocol does between lock and unlock |
| FactorySections.SharedInformerFactory.InformerFor | pkg/client/informers/externalversions/factory.go:181-201 | likewise; the constructor is called only for a type without an informer |
| FactorySections.SharedInformerFactory.CopyStarted | pkg/client/informers/externalversions/factory.go:159-170 | likewise; the copy is exactly the started informers |

## Remarks

These follow from one look at a definition and are kept beside it: a stream session leaves
every file alone (`Delivery.StreamLeavesCursorAlone`), a layer that decides the mode does
not depend on those below it (`Mode.Precedence`), `auto` would resolve as an empty mode
does (`Mode.AutoWouldResolve`), and two names that are equal in lower case give the same
event in both orders if and only if their values are equal
(`SinkClient.CaseClashDependsOnOrder`), an accepted replacement replaces exactly the
version that was read (`ApiServer.ReplacedWhatWasRead`), a status write keeps all that others
wrote (`StatusUpdate.NothingLost`), what the index of the first failure means
(`PollClient.FirstFailure`), and that `gotEvent` means some line carried an event
(`StreamLoop.GotEventMeaning`). What the functions of a contract say is stated besides, in
literals: of texts (`Text.TrimSpaceMeans`, `Text.AsciiSpaces`, `Text.JoinSplit`), names and
headers (`SinkClient.TakenNames`, `BinaryRequest.SentVersionAndId`,
`BinaryRequest.SentSourceAndType`, `BinaryRequest.SentTimeAndSubject`,
`BinaryRequest.SentContent`), references (`EnvExpansion.DoubledDollar`,
`EnvExpansion.ReferenceFirst`, `AdapterDeployment.VariablesNamed`), conditions
(`Lifecycle.SummaryMeans`, `Lifecycle.InitializedMeans`, `Lifecycle.MarksMean`,
`StatusUpdate.PreparedMeans`), the Deployment (`SourceReconciler.RenderedMeans`), the
transport (`Dispatcher.TransportOfMode`), and of what is left to the environment
(`Delivery.EnvironmentIsFree`, `InformerFactory.SchedulerIsFree`). `Delivery.ExactlyOnceAfterDedupe` is the history of
a single pod whose volume lasts.

## Left out

- HTTP, TLS, URLs, timeouts and JSON: a fetch, a line or a send has the outcomes the code branches on.
- Texts of sink errors; the redirects an HTTP client follows.
- Cancellation of the adapter's parent context: the dispatcher is modelled while it lives; a poll session ends with the script of its ticks.
- The poll loop is modelled twice, for what it does in `PollClient.dfy` and for when it returns in `Dispatcher.dfy`.
- Server-side resume of a stream: the durable consumer is not part of this repository, so nothing is claimed about events a stream misses.
- CursorFile.CursorStore.WriteCursor: MkdirAll is only a success or a failure, directories are not modelled.
- Lifecycle.SourceStatus.MarkTrue: times of transition are left out; the dependent that changed last may be either.
- StatusUpdate.ReconcilerImpl.Reconcile: recorded events, the wrapping of errors and the skip key of a replica that is not the leader are left out.
- StatusUpdate.UpdateStatus: the waits between attempts are left out; the retry helper's five steps are kept.
- Finalizers and read-only observers: the reconciler implements neither.
- The container's name, ports, probes and volumes, which do not depend on the source; the Deployment's metadata is one opaque field.
- The informer's resync period and transform, which the factory passes on.
- Validation, deep copies, client sets, listers, injection, webhooks, charts and logging: easy or boilerplate.

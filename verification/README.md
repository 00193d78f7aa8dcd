# hol-guard tooling, modelled and proved

A Dafny model of the Python tooling around the hol-guard command guard, with proofs of what that tooling is
for. `dafny verify dfyconfig.toml` checks all of it. The modules follow the scripts:

- **Benchmark accounting** (`Wave`, `Progress`, `Recovery`, `Overload`): a wave of requests on a thread pool
  with a timeout, cancellation and late callbacks, as the interleaving of its atomic steps; the recovery loop
  with its exception and interrupt paths; and the reconciliation of route labels with counters.
- **Route provenance** (`RouteProvenance`): which route a request took, from thread-local nesting and one
  locked map, over every interleaving.
- **Source conversion** (`StaticValues`, `PythonValues`, `Expansion`, `Expressions`, `Rendering`, `Calls`, `Guards`,
  `Bounds`, `RenderedValues`, `CallBounds`, `Widths`, `CallCrashes`, `Crashes`, `SafeExpressions`, `Evaluator`,
  `Conversion`, `Meters`, `Overflows`, `Inlining`, `SourcePublish`): the budgeted evaluator with its reviewed
  matcher helpers against a metered denotation, exactly when it leaves its length limit and exactly when it raises,
  the worklist expansion check against recursive measures, the graph inliner against unfolding, and the
  all-or-nothing installer.
- **Release publication** (`Publication`, `PublishedRetry`, `Retry`): three classifiers of local and remote
  digests, the upload planner over an append-only registry, the retry decision taken from another process's
  error text, and the bounded backoff.
- **Codecs and rewriters** (`Options`, `Powers`, `Bytes`, `Sequences`, `WebSocket`, `ImplementationDigest`, `Record`, `Lockfile`,
  `Alpha`): RFC 6455 frames, length-framed digest input, base64url RECORD rows, the lockfile version line, and
  alpha version numbers.
- **Claim notices** (`ClaimNotices`): planning, posting, refreshing and withdrawing comments over repeated runs.

Objects whose methods change their fields are classes, loops are loops, and each is proved against a function
or predicate about which the theorems are stated. Sockets, disks, registries, clocks and other threads are
parameters, nondeterministic choices or the steps of a state machine.

Where a promise does not hold of the code, the model keeps the code and states exactly when it holds:

- Not every evaluated sequence is within 16,384 items. A call leaves the limit exactly when a guard on its
  arguments says so (`CallBounds.CallBoundedIff`), and two expressions within every budget do
  (`Overflows.PlainArgumentsOverflow`, `Overflows.OneFlagTooMany`). A record counts its kind, for that is an entry
  once the record is rendered (`RenderedValues.RecordGrows`).
- Evaluation can also end in a `TypeError` or a `UnicodeEncodeError`, which the converter reports later as a
  structural conversion error: exactly where an operation meets operands on which Python raises, or a text has no
  UTF-8 form, before a budget is exceeded (`Crashes.ExprCrashes`, `CallCrashes.CallCrashesIff`,
  `Conversion.EvaluateModule`), and never in an expression without such operations
  (`SafeExpressions.SafeNeverCrashes`).
- The retry test on error text can disagree with the in-process decision (`PublishedRetry.DecisionsAgree`,
  `PublishedRetry.PendingReleasesDisagree`, `PublishedRetry.TaggedWheelFoolsTheText`).
- Reconciled labels equal the counters only if overloaded responses were labelled fail-safe
  (`Overload.LabelsTallyExactly`, `Overload.ResidentOverloadDoesNotTally`).
- The handlers of the benchmark catch ordinary errors only, so each interrupt leaves one entry unresolved
  (`Wave.ExactlyOnceAccounting`, `Wave.InterruptedRequestIsLost`, `Recovery.BalancedUnlessInterrupted`,
  `Recovery.InterruptLeavesAnEntryOpen`).
- The computed alpha is not always the least acceptable one (`Alpha.ComputedIsLeast`).
- From an arbitrary set of comments, a second notice run can still post guidance
  (`ClaimNotices.SecondRunWritesNothing`); on a pull request that began without comments it cannot
  (`ClaimNotices.RepeatedRunWritesNothing`).

## Model

| member | source | states |
|---|---|---|
| `Wave.ExactlyOnceAccounting` | scripts/native_slo_capacity.py:85-138 | For every number of requests, both wirings and every interleaving of worker and caller steps: at every moment no request is counted twice; once the caller is back and every started request and callback has ended, attempted + cancelled is the number submitted, and completed + failed + cancelled is it too, with `missing` 0, if and only if no request ended in an exception outside `Exception`; then each outcome is in the counter it belongs to. In every case `missing` is exactly the lost requests and the answers an aborted caller still held, and it is exactly the number of interrupted requests if the caller was not aborted or success is not deferred. |
| `Wave.InvariantHolds` | scripts/native_slo_capacity.py:63-138 | Every schedule keeps the invariant: where the caller stands constrains every request, and each stage counter equals the requests that reached that outcome less what the caller has taken over but not yet reported. |
| `Wave.AlwaysAStep` | scripts/native_slo_capacity.py:95-138 | A wave never gets stuck: in every reachable state short of the quiet end some step is possible. |
| `Wave.EveryWaveEnds` | scripts/native_slo_capacity.py:85-138 | Every schedule of a wave of n requests has at most 16 n + 14 steps, and one that cannot go on ends quiet: the caller is back and every request and callback has ended. |
| `Wave.StepsRunOut` | scripts/native_slo_capacity.py:85-138 | Each step lowers a rank of the whole wave, callbacks that are registered on the way included. |
| `Wave.AbortNeedsInterrupt` | scripts/native_slo_capacity.py:97-137 | The caller leaves a wave without its own result only if it met a request that ended in an exception outside `Exception`. |
| `Wave.InterruptedRequestIsLost` | scripts/native_slo_benchmark_stages.py:42-52 | A schedule of one request that ends quiet with one attempt and `missing` 1. |
| `Wave.StepKeepsPlaces` | scripts/native_slo_capacity.py:85-138 | Each of the eighteen atomic steps keeps what the caller position promises about every request, touched or not; the futures taken as unfinished at the timeout may be any superset of those not done. |
| `Wave.StepKeepsBalance` | scripts/native_slo_capacity.py:291-332 | Each step, deferred success and late callbacks included, keeps every counter equal to the requests counted in it. |
| `Wave.ResolvedOnce` | scripts/native_slo_progress.py:240-261 | The completed, failed and cancelled counts together never exceed the requests, and reach them if and only if each request is in one of the three. |
| `Wave.MissingOf` | scripts/native_slo_progress.py:46-58 | At a quiet end `missing` is exactly the number of requests in none of the three counts plus the answers an aborted caller held; without an abort, or without deferred success, it is the number of interrupted requests. |
| `Wave.OutcomesOf` | scripts/native_slo_benchmark_stages.py:37-56 | When every request has ended and the caller was not aborted, each counter is the number of requests whose outcome belongs there, judged from the outcomes alone. |
| `Progress.SloProgress.PlanOperation` | scripts/native_slo_progress.py:232-235 | Gives a stage without a denominator the denominator one, keeps the denominator of any other, and moves no other stage. |
| `Progress.SloProgress.Submit` | scripts/native_slo_progress.py:240-242 | The submitted count of that stage grows by the count, or by nothing if that is negative; its seven other fields and every other stage stay; a stage nobody planned counts from zero. |
| `Progress.SloProgress.Attempt` | scripts/native_slo_progress.py:244-249 | The started and attempted counts of that stage grow by the same amount, never negative; its other fields and every other stage stay. |
| `Progress.SloProgress.Complete` | scripts/native_slo_progress.py:251-253 | Of that stage only the completed count grows, never by a negative amount, and no other stage moves. |
| `Progress.SloProgress.FailRequest` | scripts/native_slo_progress.py:255-257 | Of that stage only the failed count grows, never by a negative amount, and no other stage moves. |
| `Progress.SloProgress.RecordFailure` | scripts/native_slo_progress.py:283-309 | The first recorded failure is never overwritten. |
| `Recovery.ObserveWithProgress` | scripts/native_slo_benchmark_stages.py:23-56 | Counts one submission (if asked), one attempt, and one failure for an error or one completion (if asked) for an answer, and neither for an interrupt; a fatal error is recorded only as the first failure, and what was raised is passed on. |
| `Recovery.PreflightOperation` | scripts/native_slo_preflight.py:11-24 | One planned, submitted and attempted operation that is counted once, as completed or failed, with its first failure kept; an interrupt leaves it uncounted and unrecorded. |
| `Recovery.RecoverySample` | scripts/native_slo_benchmark_stages.py:139-225 | One iteration, with its exception handler, on any progress object: one entry in each stage it reached, resolved or failed exactly as the sample explains and open only for an interrupt, and none in the others. |
| `Recovery.RunRecovery` | scripts/native_slo_benchmark_stages.py:130-225 | At every exit, by return, error or interrupt, the three recovery stages hold exactly the entries that the first stopping sample explains, no other stage moved, and the recorded failure is the first one. |
| `Recovery.RecoveryBalances` | scripts/native_slo_progress.py:46-58 | For a run planned for its own number of samples: in each of the three stages attempted = completed + failed, plus one exactly where an interrupt ended the run; at most one failure; `missing` is what was not resolved. |
| `Recovery.BalancedUnlessInterrupted` | scripts/native_slo_benchmark_stages.py:217-224 | All three stages have attempted = completed + failed if and only if no interrupt ended the run. |
| `Recovery.InterruptLeavesAnEntryOpen` | scripts/native_slo_benchmark_stages.py:42-52 | A run planned for one sample whose first observation is interrupted ends with one attempt in the precondition stage and attempted = completed + failed + 1. |
| `Recovery.StopsAtFirst` | scripts/native_slo_benchmark_stages.py:139-225 | What would happen after the first stopping sample does not matter. |
| `Recovery.AccountingGrows` | scripts/native_slo_benchmark_stages.py:139-225 | The accounts of the samples so far and of one more sample are the accounts of both, in every stage. |
| `Recovery.FirstStop` | scripts/native_slo_benchmark_stages.py:139-225 | The first sample that stops the run, with the stage and whether by an interrupt; all samples before it succeed. |
| `RouteProvenance.FinishAnswersEvidence` | scripts/native_slo_route_provenance.py:54-56 | In every run of any threads, `finish` answers a route other than the fail-safe one exactly when the request is registered and its last outermost call that ended with evidence recorded that route last, on its own thread. |
| `RouteProvenance.KeptRouteIsProven` | scripts/native_slo_route_provenance.py:79-99 | The route kept for a registered request is exactly the one the run proves, whatever the other threads do in between. |
| `RouteProvenance.ThreadsAreConsistent` | scripts/native_slo_route_provenance.py:69-99 | Thread-local depth and route say exactly what the run says about the open outermost call: its nesting, its token and the last route captured in it. |
| `RouteProvenance.ActiveIsRegistered` | scripts/native_slo_route_provenance.py:45-56 | The active map holds exactly the requests begun before any close and not finished since. |
| `RouteProvenance.FinishedNeverReturns` | scripts/native_slo_route_provenance.py:54-111 | A token that was finished or swept away by a close is never active again and answers the fail-safe route. |
| `RouteProvenance.IdleThreadHoldsNoRoute` | scripts/native_slo_route_provenance.py:79-99 | A thread outside every tracked call holds depth 0 and no route, also after exceptions. |
| `RouteProvenance.DepthNonNegative` | scripts/native_slo_route_provenance.py:79-99 | The depth of a thread is its entries less its exits, and each frame remembers the depth it was entered at. |
| `RouteProvenance.RequestRouteTracker.BeginRequest` | scripts/native_slo_route_provenance.py:45-52 | Registers the token without a route, or refuses after a close; one step of the protocol. |
| `RouteProvenance.RequestRouteTracker.FinishRequest` | scripts/native_slo_route_provenance.py:54-56 | Removes the token and answers its route or the fail-safe one; one step of the protocol. |
| `RouteProvenance.RequestRouteTracker.CaptureRoute` | scripts/native_slo_route_provenance.py:69-71 | Keeps a recognised route inside a call, forgets an unrecognised one, and ignores captures outside; one step of the protocol. |
| `RouteProvenance.RequestRouteTracker.EnterInvoke` | scripts/native_slo_route_provenance.py:79-83 | One level deeper; an outermost entry forgets the route; one step of the protocol. |
| `RouteProvenance.RequestRouteTracker.StoreResult` | scripts/native_slo_route_provenance.py:85-95 | Stores the route only for an outermost call with evidence whose token is still active; one step of the protocol. |
| `RouteProvenance.RequestRouteTracker.LeaveInvoke` | scripts/native_slo_route_provenance.py:96-99 | Restores the depth and forgets the route at depth 0; one step of the protocol. |
| `RouteProvenance.RequestRouteTracker.CloseTracker` | scripts/native_slo_route_provenance.py:101-111 | Closes once and drops every active request; one step of the protocol. |
| `Overload.InferenceIsSound` | scripts/native_slo_capacity_support.py:53-128 | If classification marks anything overloaded, then reconciliation fires, its labels equal the counter deltas, only overload flags and non-overloaded routes changed, and the bounded 64-client predicate holds. |
| `Overload.ChangeNeedsProof` | scripts/native_slo_capacity_support.py:105-128 | Without an inferred overload, labels change only when the deltas account for every response. |
| `Overload.ReconcileExactly` | scripts/native_slo_capacity_support.py:105-128 | Reconciliation changes exactly the routes of non-overloaded observations, and only when the deltas match; otherwise nothing. |
| `Overload.LabelsTallyExactly` | scripts/native_slo_capacity_support.py:105-128 | After reconciliation the label counts equal the counter deltas if and only if every overloaded observation was already labelled fail-safe. |
| `Overload.ResidentOverloadDoesNotTally` | scripts/native_slo_capacity_support.py:105-128 | A wave on which reconciliation fires and they do not: one denied, overloaded response that carries the resident label. |
| `Overload.MarkingKeepsMatch` | scripts/native_slo_reporting.py:172-183 | Marking the candidates keeps the counter match that reconciliation looks for. |
| `Expansion.ValidateExpandedValues` | scripts/command_source_backlog.py:1337-1392 | The worklist check with its early aborts accepts a value exactly when its recursively defined occurrence count, depth and string bytes are within 32,768, 64 and 16 MiB; it never pops or queues more than 32,768 items. |
| `Expansion.PopKeepsAccounts` | scripts/command_source_backlog.py:1345-1392 | One turn of the loop loses nothing and counts nothing twice: what is counted plus what is pending stays what the root owes. |
| `Expansion.ChildrenReachAsHigh` | scripts/command_source_backlog.py:1345-1392 | Replacing a value by its children one level down keeps every depth bound, in both directions. |
| `Expansion.DoublingExplodes` | scripts/command_source_backlog.py:1337-1344 | A value of k + 1 shared objects has 2^(k+1) - 1 occurrences. |
| `Expansion.SharedPairsAcceptedUpToFourteen` | scripts/command_source_backlog.py:1337-1392 | Of the nested shared pairs exactly those up to fourteen levels are accepted. |
| `Evaluator.RestrictedEvaluator.Evaluate` | scripts/command_source_backlog.py:577-582 | A module evaluates if and only if it denotes bindings and its charges, defined by recursion on the program, fit 100,000 steps, 32,768 items, 1 MiB of string bytes, nesting 64, 16,384 items a sequence and 4,096 rows; it then gives those bindings, and otherwise what it denotes instead or a rejection. For any table of calls with exact guards it produced a value beyond the length limit exactly if some call passed its guard; if none did, every binding is within the limit. |
| `Conversion.EvaluateModule` | scripts/command_source_backlog.py:577-582 | The same for the source's own calls and without conditions: a module gives what it denotes if its charges fit and a rejection if not; it ends in a Python error exactly if the charges fit and some operation, judged by the kinds of its operands, raises; it produced a value beyond the length limit exactly if some call passed its guard, and otherwise every binding is within the limit. |
| `Evaluator.RestrictedEvaluator.Statement` | scripts/command_source_backlog.py:584-664 | The bindings a statement denotes, charged exactly, or a rejection exactly when the charges do not fit; only the first target is checked before the value is evaluated. |
| `Evaluator.RestrictedEvaluator.Expression` | scripts/command_source_backlog.py:666-675 | Gives exactly what the expression denotes if its charges fit what is left, and rejects exactly if they do not; the counters grew by exactly those charges and the depth counter is restored on every way out. |
| `Evaluator.RestrictedEvaluator.Body` | scripts/command_source_backlog.py:677-841 | The same for every form of expression, f-strings included; a text without a UTF-8 form ends in Python's error when it is charged. |
| `Evaluator.RestrictedEvaluator.Step` | scripts/command_source_backlog.py:468-473 | Charges one step and rejects exactly when more than 100,000 were charged. |
| `Evaluator.RestrictedEvaluator.ChargeItems` | scripts/command_source_backlog.py:475-484 | Rejects exactly when one sequence is longer than 16,384 or the total would pass 32,768. |
| `Evaluator.RestrictedEvaluator.ChargeString` | scripts/command_source_backlog.py:486-497 | Rejects exactly when the string bytes charged would pass 1 MiB. |
| `Evaluator.RestrictedEvaluator.DisplayExpr` | scripts/command_source_backlog.py:691-712 | A tuple, list or set display denotes its elements, starred ones expanded; it is rejected for its budget exactly when the length, the elements or their total are over it. |
| `Evaluator.RestrictedEvaluator.DictExpr` | scripts/command_source_backlog.py:713-727 | A mapping display denotes its entries in order, with string keys and no duplicates; it is rejected for its budget exactly when its charges do not fit. |
| `Evaluator.RestrictedEvaluator.CompareExpr` | scripts/command_source_backlog.py:743-765 | A comparison chain denotes the conjunction of its links; its charges are those of every operand once. |
| `Evaluator.RestrictedEvaluator.Comprehension` | scripts/command_source_backlog.py:843-887 | A comprehension denotes its element over every row, charged again for each row; the row limit rejects exactly when a walk is entered while 4,096 rows are present, even if it would add none. |
| `Evaluator.RestrictedEvaluator.Walk` | scripts/command_source_backlog.py:854-879 | The rows are exactly those the generators denote, in order, each generator evaluated under the bindings before it, with exactly their charges. |
| `Evaluator.RestrictedEvaluator.CallExpr` | scripts/command_source_backlog.py:914-939 | Arguments are evaluated in order, starred ones expanded, duplicates and unpacked keywords rejected, with exactly their charges. |
| `Evaluator.RestrictedEvaluator.ApplyCall` | scripts/command_source_backlog.py:941-1021 | A call denotes what its values make and is charged exactly for the sequences it copies. |
| `CallBounds.CallBoundedIff` | scripts/command_source_backlog.py:941-1334 | For every call and bounded arguments, a call that returns gives a value beyond 16,384 items if and only if its guard holds, and the guard looks at the arguments alone: too many positional values or fields, or a flag or option set that is already full. |
| `CallBounds.TableIsGuarded` | scripts/command_source_backlog.py:941-1021 | So the source's own table of calls, whatever the library orders, meets the condition under which the length theorems are stated. |
| `CallBounds.ExecutableBounded` | scripts/command_source_backlog.py:1127-1154 | With all option settings of `executable_config`, `executable_matcher` gives a value within 16,384 items if and only if it got at most 16,385 positional values. |
| `CallBounds.NativeBounded` | scripts/command_source_backlog.py:1023-1046 | A native matcher constructor, whose fields are rendered, stays within the limit if and only if it has at most 16,384 fields. |
| `CallBounds.CloneBounded` | scripts/command_source_backlog.py:1296-1334 | Cloning the children of a matcher with one more flag or option stays within the limit if and only if no child is already full. |
| `Overflows.PlainArgumentsOverflow` | scripts/command_source_backlog.py:918-932 | An `executable_matcher` call with more than 16,384 plain subcommands is within every budget and denotes a value beyond the limit. |
| `Overflows.OneFlagTooMany` | scripts/command_source_backlog.py:1296-1315 | `with_required_flag` on an executable matcher with 16,384 flags is within every budget and denotes a value beyond the limit, whatever the library. |
| `CallBounds.ConstructorBounded` | scripts/command_source_backlog.py:1091-1107 | A record stays within the limit if and only if its fields and its kind are at most 16,384 entries. |
| `RenderedValues.RenderingKeepsTheLimit` | scripts/command_source_backlog.py:198-213 | A value rendered for JSON is within the length limit if and only if the value is, a record counting its kind. |
| `RenderedValues.RecordGrows` | scripts/command_source_backlog.py:203-204 | A rendered record has one entry more than fields, unless a field takes the place of its kind. |
| `RenderedValues.JsonTwice` | scripts/command_source_backlog.py:198-213 | Rendering a rendered value changes nothing. |
| `Widths.ModuleWidth` | scripts/command_source_backlog.py:577-664 | A module that denotes bindings and fails no length check produces a value beyond the limit exactly if some call passes its guard; without such a call every binding is within the limit. |
| `Widths.ExprWidth` | scripts/command_source_backlog.py:666-841 | The same for every expression under bounded bindings. |
| `Bounds.BindTargetBounded` | scripts/command_source_backlog.py:889-912 | Binding comprehension targets, nested shapes included, keeps bindings within the limit. |
| `Crashes.ExprCrashes` | scripts/command_source_backlog.py:666-841 | By induction over all expressions: what an expression denotes is a Python error if and only if a flag is set that only looks at the kinds of operands where Python can raise: membership, stars, set members, shaped targets, texts without UTF-8 and guarded calls. |
| `Crashes.ModuleCrashes` | scripts/command_source_backlog.py:577-664 | The same for whole modules, statement by statement. |
| `Crashes.LiteralCrashes` | scripts/command_source_backlog.py:497-498 | A literal or f-string raises if and only if its text has no UTF-8 form; an f-string with a formatted value is refused before that. |
| `CallCrashes.CallCrashesIff` | scripts/command_source_backlog.py:941-1334 | Every call raises if and only if its guard on name and arguments holds. |
| `CallCrashes.CloneCrashes` | scripts/command_source_backlog.py:1296-1334 | Cloning with one more flag or option raises if and only if the shape is accepted and some child holds settings that cannot be iterated, hashed or ordered. |
| `SafeExpressions.SafeNeverCrashes` | scripts/command_source_backlog.py:677-841 | Without a membership test, a star, a set comprehension, a shaped target, a text without UTF-8 and calls that can raise, evaluation gives a value or a rejection and never raises. |
| `Crashes.MembershipExpression` | scripts/command_source_backlog.py:743-765 | A membership expression on operands that are values raises exactly when that test does. |
| `CallCrashes.SortedCrashes` | scripts/command_source_backlog.py:953-960 | `sorted` raises exactly on something that is no sequence and on a mixture of texts and numbers. |
| `CallCrashes.GroupCrashes` | scripts/command_source_backlog.py:970-984 | An any or all matcher raises exactly on children that are no sequence or hold something else than matchers. |
| `Crashes.CollectCrashes` | scripts/command_source_backlog.py:843-887 | Collecting a comprehension raises exactly for a set with a member that cannot be hashed. |
| `SafeExpressions.PlainNamesNeverRaise` | scripts/command_source_backlog.py:961-1010 | In the source's table, calls of the record constructors, of `ArgumentMatcher` and of `executable_names` never raise. |
| `Inlining.Inliner.Inline` | scripts/migrate_command_extension_sources.py:63-81 | Returns a tree exactly when the graph has an unfolding at the node that fits the remaining depth and node budget; the tree is that unfolding and the shared counter grew by its size. |
| `Inlining.Inliner.InlineReferences` | scripts/migrate_command_extension_sources.py:76-80 | The same for the references of one child field, in order. |
| `Inlining.RootInlinesIff` | scripts/migrate_command_extension_sources.py:63-81 | A root inlines if and only if every path below it has at most 33 nodes and ends at an existing node with only the three child fields, and the unfolding fits what is left of 16,384 nodes. |
| `Inlining.UnfoldsIffBoundedComplete` | scripts/migrate_command_extension_sources.py:63-81 | Unfolding within n levels is the same as completeness and no path of more than n nodes. |
| `Inlining.InliningPreservesMeaning` | scripts/migrate_command_extension_sources.py:70-81 | Any compositional meaning of the graph node and of the inlined tree agree. |
| `Inlining.UnfoldingIsUnique` | scripts/migrate_command_extension_sources.py:70-81 | A node has at most one unfolding. |
| `Inlining.CycleHasNoUnfolding` | scripts/migrate_command_extension_sources.py:68-69 | A node that can reach itself has no unfolding of any size. |
| `Inlining.UnfoldingMeansAcyclic` | scripts/migrate_command_extension_sources.py:68-69 | No path from an unfolded node meets a node twice. |
| `SourcePublish.Disk.Publish` | scripts/migrate_command_extension_sources.py:142-184 | All or nothing on files, told from the arguments alone: a conflict or an unsafe name is refused before any write, an equal directory is a no-op, success leaves exactly the wanted files beside what others added, and the first create that fails leaves exactly what others had added by then. |
| `SourcePublish.Disk.WriteAll` | scripts/migrate_command_extension_sources.py:173-184 | The write loop with its roll-back: it succeeds if and only if no create meets a fault or a foreign file of the same name, and leaves the files of others, as a function of what they offered until then, with all of its own files or none. |
| `SourcePublish.FirstStop` | scripts/migrate_command_extension_sources.py:173-184 | The first create that fails, and that all before it succeed. |
| `SourcePublish.ForeignOnlyGrows` | scripts/migrate_command_extension_sources.py:180-183 | A file of another process is never lost or changed by a later create or a roll-back. |
| `SourcePublish.Disk.RemoveCreated` | scripts/migrate_command_extension_sources.py:180-183 | Roll-back leaves exactly the entries of others. |
| `SourcePublish.PublishAgain` | scripts/migrate_command_extension_sources.py:142-184 | Publishing twice ends with exactly the wanted files, and the second call is a no-op after a success. |
| `Publication.Staging.PlanUpload` | scripts/verify_native_runtime_release.py:347-383 | Plans if and only if the registry lists files or knows no release, nothing conflicts and no wanted name is staged already; a release without files and a conflict fail before anything is staged; a plan is local minus remote, stages exactly those bytes, and never replaces a staged file. |
| `Publication.InspectRelease` | scripts/verify_release_registry.py:165-220 | A lookup finds a release exactly when the registry lists files for it, and then reports exactly those. |
| `Publication.Staging.StageMissing` | scripts/verify_native_runtime_release.py:377-383 | Stages the missing artifacts in order, up to one whose place is taken. |
| `Publication.PlanIsTheMissing` | scripts/verify_native_runtime_release.py:377-383 | The plan lists exactly the artifacts the registry lacks, each once. |
| `Publication.ComparisonIsClassification` | scripts/release_registry_retry.py:57-94 | The in-process comparison reports exact, retryable and mismatch exactly for the exact, incomplete and conflicting cases. |
| `Publication.ReportedSetsClassify` | scripts/verify_native_runtime_release.py:403-414 | The three reported sets decide which case an existing release is in. |
| `Publication.Convergence` | scripts/verify_native_runtime_release.py:365-383 | From any non-conflicting state any order of planned uploads stays eventually complete until it is exact, and is exact when all were uploaded. |
| `Publication.ConflictIsPermanent` | scripts/release_registry_retry.py:84-94 | On an append-only registry a conflict never goes away. |
| `PublishedRetry.RetryableExactly` | scripts/retry_verify_published.py:18-19 | The test on the error text says retryable exactly when the two lists are empty or their empty spelling occurs in the lead text or a listed name. |
| `PublishedRetry.SearchMessage` | scripts/verify_native_runtime_release.py:403-414 | Where a pattern can occur in the rendered error: in the lead text, at the opening of a list, or inside a name. |
| `PublishedRetry.DecisionsAgree` | scripts/retry_verify_published.py:18-46 | For everything a registry can report, the text test and the in-process decision agree on retrying if and only if the release is not one without files, and not a conflict whose unexpected names spell the empty spelling of every list that is not empty; local names, which hold no equals sign, cannot. |
| `PublishedRetry.PendingReleasesDisagree` | scripts/verify_release_registry.py:189-214 | On a release without files the process retries and the text test gives up. |
| `PublishedRetry.TextRetriesExactly` | scripts/verify_native_runtime_release.py:403-414 | The exact text decision for an existing release that is not exact, through Python's rendering of the names and the fixed message. |
| `PublishedRetry.UntaintedDecisionsAgree` | scripts/verify_release_registry.py:317-343 | When no remote name holds an equals sign, a release without files is the only disagreement. |
| `PublishedRetry.TaggedWheelFoolsTheText` | scripts/retry_verify_published.py:18-19 | For every local set and version, one extra wheel whose build tag spells an empty list makes a conflict look retryable. |
| `PublishedRetry.AbsentReleasesAreNotRetried` | scripts/verify_release_registry.py:319-325 | An absent release is retried by neither: it is a result in process and an error for the verifier. |
| `Retry.RetryRegistryOperation` | scripts/release_registry_retry.py:108-176 | Settings outside the limits are refused before any call; otherwise at most `attempts` calls, the first outcome that is not retryable is returned unchanged, and the sleeps are the delays in order. |
| `Retry.RunIsBounded` | scripts/release_registry_retry.py:97-132 | For all accepted settings the sleeps add up to at most 60 seconds and never shrink. |
| `Retry.DelaysNeverShrink` | scripts/release_registry_retry.py:97-99 | Delays are non-negative, non-decreasing and at most the maximum. |
| `Retry.DefaultsMeetTheBound` | scripts/release_registry_retry.py:108-132 | The default settings are accepted and meet the 60-second bound with equality. |
| `Retry.AttemptsUsed` | scripts/release_registry_retry.py:148-176 | How many calls are made: up to the first that is not retryable, at most `attempts`. |
| `Retry.WaitForPublished` | scripts/retry_verify_published.py:22-46 | The same loop around the verifier process, with its exit codes. |
| `WebSocket.RecvExact` | scripts/codex-auto-resume-smoke.py:317-324 | Exactly the next bytes, whatever non-empty chunks they arrive in; fails only when the stream ends first. |
| `WebSocket.RecvWebsocketFrame` | scripts/codex-auto-resume-smoke.py:327-338 | Returns the first frame of the stream and consumes exactly it, whatever the chunks. |
| `WebSocket.TextRoundTrip` | scripts/codex-auto-resume-smoke.py:327-350 | What the sender wrote decodes to opcode 1 and the same payload, and leaves what follows. |
| `WebSocket.DecodesLayout` | scripts/codex-auto-resume-smoke.py:327-338 | Any frame of sections 5.2 and 5.3 of RFC 6455, masked or not and in any length form, decodes to its opcode and its unmasked payload. |
| `WebSocket.OnlyLayoutsDecode` | scripts/codex-auto-resume-smoke.py:327-338 | Conversely, whatever decodes is such a frame followed by the reported rest. |
| `WebSocket.CutFrameYieldsNothing` | scripts/codex-auto-resume-smoke.py:317-350 | A stream cut inside a sent frame yields no message. |
| `WebSocket.ReceiveAll` | scripts/codex-auto-resume-smoke.py:317-350 | Concatenated frames decode to the same sequence of payloads and use up the stream. |
| `WebSocket.UnmaskTwice` | scripts/codex-auto-resume-smoke.py:336-337 | Unmasking undoes masking. |
| `WebSocket.MoreBytesChangeNothing` | scripts/codex-auto-resume-smoke.py:327-338 | Bytes after a frame never change what it decodes to. |
| `ImplementationDigest.FeedDigest` | scripts/build_native_command_program.py:95-105 | The digest loop feeds the framed bytes of every file in order after the tag. |
| `ImplementationDigest.FingerprintInputInjective` | scripts/build_native_command_program.py:95-105 | With eight-byte lengths, two file lists of any length feed the same bytes if and only if they have the same paths and normalised contents in order. |
| `ImplementationDigest.DigestInputInjective` | scripts/build_native_command_program.py:95-105 | The same for every width of the length field. |
| `ImplementationDigest.LineEndsDoNotMatter` | scripts/build_native_command_program.py:95-105 | A text without stray carriage returns feeds the same bytes with either line ending. |
| `Record.UnpaddedRoundTrip` | scripts/installed_canary_proof.py:138-143 | Stripping the padding, padding again and decoding gives back every byte string (section 5 of RFC 4648). |
| `Record.DecodesEncoded` | scripts/installed_canary_proof.py:143-143 | The lenient decoder undoes base64url encoding. |
| `Record.RepadRestores` | scripts/build_native_hol_guard_wheel.py:378-381 | The verifier puts back exactly the padding the builder stripped. |
| `Record.RecordHashRoundTrip` | scripts/build_native_hol_guard_wheel.py:378-381 | A hash cell decodes to the digest it was made of. |
| `Record.RecordRows` | scripts/build_native_hol_guard_wheel.py:384-393 | One row per entry but the record itself, then the record row without hash and size. |
| `Record.VerifyInstalledRecord` | scripts/installed_canary_proof.py:218-235 | Returns the number of rows with a digest exactly when every row holds and there is at least one; otherwise it raises. |
| `Record.RecordAgreement` | scripts/installed_canary_proof.py:218-235 | An installation verifies against the built rows if and only if there is a payload and every entry but the record is installed unchanged, for a hash without collisions among the compared contents. |
| `Lockfile.FindLockfileVersionIndex` | scripts/sync_repo_version.py:154-185 | The scan with its block flags, proved against a fold over what it sees in each line. |
| `Lockfile.FindsTheVersionLine` | scripts/sync_repo_version.py:154-185 | The scan finds line k if and only if k is the first version line of the first package block whose last name line is ours and whose last source line is the editable one; it fails only without such a block. |
| `Lockfile.RewriteChangesTheVersion` | scripts/sync_repo_version.py:196-203 | Where a version can be read, a token free of quotes and line breaks changes only that line and in it only the version; line ending and index stay, it reads back, and the flag says whether the version differed. |
| `Lockfile.SecondRewriteChangesNothing` | scripts/sync_repo_version.py:196-203 | A second replacement reports no change. |
| `Lockfile.UnreadableStays` | scripts/sync_repo_version.py:196-203 | Where no version can be read the text is returned unchanged, or the search raises. |
| `Lockfile.ReadLockfileVersion` | scripts/sync_repo_version.py:188-193 | Reads the version of the line the search finds, and raises when the pattern does not match it. |
| `Lockfile.ReplaceLockfileVersion` | scripts/sync_repo_version.py:196-203 | Replaces the version in the found line, and only reports a change when the line changed. |
| `Lockfile.ParsesMatches` | scripts/sync_repo_version.py:23-25 | The line pattern can match in at most one way, and the parser finds it. |
| `Lockfile.SplitJoin` | scripts/sync_repo_version.py:188-203 | Joining separate lines and splitting again gives the same lines. |
| `Lockfile.VersionLineStays` | scripts/sync_repo_version.py:100-106 | What follows the opening quote does not decide whether the search sees a version line. |
| `Alpha.AlphaVersions` | scripts/compute_alpha_release_version.py:17-45 | The numbers of the train's existing alphas, or a refusal exactly when some existing version closes the alpha phase or is not canonical. |
| `Alpha.ComputedIsAccepted` | scripts/validate_alpha_release.py:154-207 | For every supported train and registry on which the computer succeeds, the validator accepts the computed version from that train's branch. |
| `Alpha.PublishedAreConsecutive` | scripts/compute_alpha_release_version.py:52-57 | Repeated computing and publishing goes on for ever and gives exactly the consecutive alphas. |
| `Alpha.ComputedIsLeast` | scripts/compute_alpha_release_version.py:52-57 | The computed number is the least the validator accepts if and only if the largest existing number is taken in epoch 0 or there is none. |
| `Alpha.OtherEpochIsCounted` | scripts/validate_alpha_release.py:87-97 | A registry where it is not: the computer counts an alpha of another epoch, the validator does not. |
| `Alpha.AcceptsAbove` | scripts/validate_alpha_release.py:190-199 | The validator accepts exactly the alpha numbers above every epoch-0 alpha of the train. |
| `Alpha.ClosedStaysClosed` | scripts/compute_alpha_release_version.py:23-43 | A train that is closed stays closed whatever is published later. |
| `Alpha.StableCloses` | scripts/validate_alpha_release.py:100-109 | Publishing a stable release the validator accepts closes its train. |
| `ClaimNotices.AtMostOneOfEach` | scripts/notify_merged_extension_claimants.py:885-948 | Over any history of sequential runs, in any worlds and with any flags, with comments of others in between, there is never more than one trusted claim notice and one trusted guidance comment. |
| `ClaimNotices.SecondRunWritesNothing` | scripts/notify_merged_extension_claimants.py:885-948 | A second run on unchanged state writes nothing if and only if not the case that guidance is due and the only trusted guidance marker is in the comment the first run rewrites. |
| `ClaimNotices.MarkerCanBeLost` | scripts/notify_merged_extension_claimants.py:903-945 | That case exists for a trusted comment with both markers, which no history of this tool writes. |
| `ClaimNotices.RepeatedRunWritesNothing` | scripts/notify_merged_extension_claimants.py:860-948 | After any history that began without comments, a repeated run writes nothing, in any world and with any flags. |
| `ClaimNotices.HistoryKeepsMarkersApart` | scripts/notify_merged_extension_claimants.py:885-948 | No history brings both markers into one trusted comment. |
| `ClaimNotices.WrittenNoticeIsAuthorised` | scripts/notify_merged_extension_claimants.py:656-721 | The identities of every item in a newly written notice are exactly those accepted at the merge and now, and newly added if the contribution already existed. |
| `ClaimNotices.InvitesExactly` | scripts/notify_merged_extension_claimants.py:656-721 | A candidate invites exactly the identities that may be invited, and is invited at all only if there is one. |
| `ClaimNotices.PlanNoticeItems` | scripts/notify_merged_extension_claimants.py:656-721 | The planning loop raises exactly when some candidate breaks it, and else plans every candidate in order. |
| `ClaimNotices.PullRequest.Process` | scripts/notify_merged_extension_claimants.py:860-948 | The comments after a run, and exactly when it raises. |
| `ClaimNotices.RunCounts` | scripts/notify_merged_extension_claimants.py:903-945 | A run posts a notice or guidance only where there was none. |
| `ClaimNotices.FirstTrustedNotice` | scripts/notify_merged_extension_claimants.py:512-520 | The first trusted comment with the marker, or none if there is none. |

## Left out

- Wave: an interrupt of the calling thread itself during a wave; executor priming, load balancing and timings.
- Recovery: the `record_attempt=False` parameter, which no caller uses, and the observation and timing records; interrupts strike inside a call to outside code, not between two statements.
- RouteProvenance: installing and restoring the wrapped functions; tokens are assumed never to be drawn twice.
- Overload: latency and size summaries, and the gates other than the bounded-observation predicate.
- Evaluator: source parsing with its own node and nesting limits, imports and annotations. How `sorted` orders values that are not all texts or all numbers, the order of the texts `json.dumps` makes, and for which values these two raise, are arbitrary functions. The iteration order of a frozenset is first occurrence first; mapping keys are texts. Python's own recursion and memory limits are not modelled.
- Evaluator: the merge of module bindings with local ones on each call is one map of bindings.
- Expansion: object identity; shared objects are equal sub-terms, each occurrence charged.
- Inlining: the ownership checks of `convert` and the manifest it assembles, which are easy members around `inline`.
- SourcePublish.Disk.Publish: a failing unlink during roll-back, and the directory that a failed call created, which stays behind empty.
- Publication: reading archives, base releases, artifact selection and malformed registry answers; sorted names are any enumeration without repetition.
- PublishedRetry: which characters beyond ASCII Python renders as themselves is an arbitrary predicate.
- Retry: delays are real numbers, so rounding is not modelled; the exponent cap is.
- WebSocket: the HTTP upgrade and `_recv_until`; random masks are parameters.
- ImplementationDigest: collecting and sorting the paths, and the hash itself.
- Record: CSV quoting, path resolution and the number syntax that `int` accepts beyond plain digits; names are any enumeration; the hash is an arbitrary function.
- Lockfile: the rewrites of `pyproject.toml` and the version module, which are easier members of the same kind; a version line body holds no line feed, so the dot of the pattern matches every character.
- Alpha: version parsing and rendering, releases that do not have three parts, and the source commit check.
- ClaimNotices: the GitHub requests and the rename search that yield the views, comment texts beyond their markers, and other actors editing or deleting the trusted comments between runs.
- Benchmark measurement and rendering, the directory exporters, the intake script, the dashboard and the Rust engine.
